/** How often a run fires the trigger of a step, counted in the record of calls, and what the attempts
    of a step end with. */
module TriggerCalls {
  import opened Text
  import opened Domain
  import opened Stores
  import opened Engine
  import opened EngineLaws
  import RetryLaws
  import Lifecycle

  // ---- Calls of the trigger ----

  /** The calls of the triggers of some steps. */
  function Fires(calls: seq<Call>, of: nat -> bool): nat {
    if calls == [] then 0
    else
      var c := calls[|calls| - 1];
      Fires(calls[..|calls| - 1], of) + if c.Fire? && of(c.step) then 1 else 0
  }

  /** One step, and all of them. */
  function Step(i: nat): nat -> bool {
    j => j == i
  }

  function AnyStep(): nat -> bool {
    j => true
  }

  lemma FiresCalled(run: Run, c: Call, of: nat -> bool)
    ensures Fires(Called(run, c).calls, of) == Fires(run.calls, of) + if c.Fire? && of(c.step) then 1 else 0
  {
    assert (run.calls + [c])[..|run.calls|] == run.calls;
  }

  lemma {:induction false} StartFires(run: Run, n: nat, script: Script, i: nat, a: nat, r: nat, of: nat -> bool)
    requires r <= n
    ensures Fires(StartFrom(run, n, script, i, a, r).0.calls, of) == Fires(run.calls, of)
    decreases n - r
  {
    if r < n {
      FiresCalled(run, StartFailed(i, a, r), of);
      FiresCalled(run, Started(i, a, r), of);
      if script.start(i, a, r) == None { StartFires(Called(run, Started(i, a, r)), n, script, i, a, r + 1, of); }
    }
  }

  lemma {:induction false} MergeFires(run: Run, cs: seq<ReceiverConfig>, script: Script, i: nat, a: nat,
                                      order: seq<nat>, of: nat -> bool)
    ensures Fires(MergeFrom(run, cs, script, i, a, order).calls, of) == Fires(run.calls, of)
    decreases |order|
  {
    if order != [] {
      var r := order[0];
      var next := Finish(run, script, i, a, KindAt(cs, r), r);
      FiresCalled(next.(calls := run.calls), Collect(i, a, r), of);
      MergeFires(next, cs, script, i, a, order[1..], of);
    }
  }

  lemma {:induction false} StopFires(run: Run, n: nat, i: nat, a: nat, r: nat, of: nat -> bool, out: Run)
    requires r <= n && out == StopFrom(run, n, i, a, r)
    ensures Fires(out.calls, of) == Fires(run.calls, of)
    decreases n - r
  {
    if r < n {
      FiresCalled(run, Stopped(i, a, r), of);
      StopFires(Called(run, Stopped(i, a, r)), n, i, a, r + 1, of, out);
    }
  }

  lemma ReceiveFires(run: Run, step: StepConfig, script: Script, i: nat, a: nat, of: nat -> bool)
    ensures Fires(Receive(run, step, script, i, a).0.calls, of) == Fires(run.calls, of)
  {
    if !NoWait(step) {
      var n := |step.receivers|;
      StartFires(run, n, script, i, a, 0, of);
      var (started, error) := StartFrom(run, n, script, i, a, 0);
      if error == None {
        MergeFires(started, step.receivers, script, i, a, script.order(i, a), of);
        var all := CollectAll(started, step.receivers, script, i, a);
        StopFires(all, n, i, a, 0, of, StopFrom(all, n, i, a, 0));
      }
    }
  }

  /** An attempt fires the trigger of its step once. */
  lemma AttemptFires(run: Run, step: StepConfig, script: Script, i: nat, a: nat, lastError: Option<string>,
                     of: nat -> bool)
    ensures Fires(Attempt(run, step, script, i, a, lastError).tried.run.calls, of) ==
            Fires(run.calls, of) + if of(i) then 1 else 0
  {
    var next := NextAttempt(run, i, a);
    FiresCalled(run.(result := next.result), Fire(i, a), of);
    match script.execute(i, a, run.vars)
    case TriggerFailed(_, _) =>
    case Fired(vars, extracted) => ReceiveFires(next.(vars := vars + extracted), step, script, i, a, of);
  }

  lemma {:induction false} ReserveFires(run: Run, cs: seq<ReceiverConfig>, script: Script, i: nat, r: nat,
                                        reserved: seq<ReceiverConfig>, of: nat -> bool)
    requires r <= |cs|
    ensures Fires(ReserveFrom(run, cs, script, i, r, reserved).run.calls, of) == Fires(run.calls, of)
    decreases |cs| - r
  {
    if r < |cs| {
      if cs[r].recipient == "" {
        ReserveFires(run, cs, script, i, r + 1, reserved, of);
      } else {
        var key := Key(cs[r].kind, cs[r].recipient);
        var (store, reply) := MemReserve(run.store, cs[r].kind, cs[r].recipient, run.runID, script.clock(i, r));
        FiresCalled(run, BookRefused(i, key), of);
        FiresCalled(run.(store := store), Booked(i, key), of);
        if reply == Reserved {
          ReserveFires(Called(run.(store := store), Booked(i, key)), cs, script, i, r + 1, reserved + [cs[r]], of);
        }
      }
    }
  }

  lemma {:induction false} ReleaseFires(run: Run, reserved: seq<ReceiverConfig>, of: nat -> bool)
    ensures Fires(Release(run, reserved).calls, of) == Fires(run.calls, of)
    decreases |reserved|
  {
    if reserved != [] {
      var rc := reserved[0];
      var next := run.(store := MemRelease(run.store, rc.kind, rc.recipient));
      FiresCalled(next, Freed(Key(rc.kind, rc.recipient)), of);
      ReleaseFires(Called(next, Freed(Key(rc.kind, rc.recipient))), reserved[1..], of);
    }
  }

  // ---- The attempts of a step ----

  /** The variables before attempt a of a step, whatever came of the attempts before. */
  function VarsMet(script: Script, i: nat, a: nat, vars: Env): Env {
    if a <= 1 then vars else Left(script.execute(i, a - 1, VarsMet(script, i, a - 1, vars)))
  }

  function Met(script: Script, i: nat, a: nat, vars: Env): Trigger {
    script.execute(i, a, VarsMet(script, i, a, vars))
  }

  /** The error of the latest trigger that failed before attempt a. */
  function LatestError(script: Script, i: nat, a: nat, vars: Env): Option<string> {
    if a <= 1 then None
    else match Met(script, i, a - 1, vars)
      case TriggerFailed(_, e) => Some(e)
      case Fired(_, _) => LatestError(script, i, a - 1, vars)
  }

  /** From run to t the attempts from a up to but without b were made. */
  ghost predicate Made(run: Run, t: Tried, script: Script, i: nat, a: nat, b: nat, vars: Env, of: nat -> bool) {
    && a <= b
    && t.run.vars == VarsMet(script, i, b, vars) && t.lastError == LatestError(script, i, b, vars)
    && t.run.result.attempts == run.result.attempts + (b - a)
    && Fires(t.run.calls, of) == Fires(run.calls, of) + if of(i) then b - a else 0
  }

  lemma AttemptMade(run: Run, step: StepConfig, script: Script, i: nat, a: nat, lastError: Option<string>, vars: Env,
                    of: nat -> bool)
    requires 1 <= a && run.vars == VarsMet(script, i, a, vars) && lastError == LatestError(script, i, a, vars)
    ensures var t := Attempt(run, step, script, i, a, lastError);
            Made(run, t.tried, script, i, a, a + 1, vars, of) && (Met(script, i, a, vars).TriggerFailed? ==> t.again)
  {
    AttemptKeeps(run, step, script, i, a, lastError);
    AttemptFires(run, step, script, i, a, lastError, of);
  }

  lemma MadeMore(run: Run, mid: Tried, t: Tried, script: Script, i: nat, a: nat, b: nat, vars: Env, of: nat -> bool)
    requires Made(run, mid, script, i, a, a + 1, vars, of) && Made(mid.run, t, script, i, a + 1, b, vars, of)
    ensures Made(run, t, script, i, a, b, vars, of)
  {
  }

  /** The attempt loop makes the attempts from a on, within the limit, and all of them if every trigger
      fails. */
  lemma {:induction false} AttemptsMade(run: Run, step: StepConfig, script: Script, i: nat, a: nat, max: nat,
                                        lastError: Option<string>, vars: Env, of: nat -> bool) returns (b: nat)
    requires 1 <= a <= max + 1
    requires run.vars == VarsMet(script, i, a, vars) && lastError == LatestError(script, i, a, vars)
    ensures Made(run, AttemptFrom(run, step, script, i, a, max, lastError), script, i, a, b, vars, of)
    ensures b <= max + 1 && (a <= max ==> a < b)
    ensures (forall c | a <= c <= max :: Met(script, i, c, vars).TriggerFailed?) ==> b == max + 1
    decreases max + 1 - a
  {
    if a > max {
      b := a;
    } else {
      var t := Attempt(run, step, script, i, a, lastError);
      AttemptMade(run, step, script, i, a, lastError, vars, of);
      if t.again {
        b := AttemptsMade(t.tried.run, step, script, i, a + 1, max, t.tried.lastError, vars, of);
        MadeMore(run, t.tried, AttemptFrom(t.tried.run, step, script, i, a + 1, max, t.tried.lastError), script, i, a,
                 b, vars, of);
      } else {
        b := a + 1;
      }
    }
  }

  // ---- Whole runs: never more often than allowed ----

  /** The limit is read off the definition: one attempt, unless retry is enabled for more. */
  predicate Within(def: Definition, n: int) {
    && (!def.retryEnabled || def.retryAttempts <= 1 ==> n <= 1)
    && (def.retryEnabled && def.retryAttempts > 1 ==> n <= def.retryAttempts)
  }

  /** One step: nothing if its trigger cannot be created or a recipient is refused, else at least one
      and at most as many attempts as allowed, all of this step, and each counted. */
  lemma StepFires(def: Definition, script: Script, run: Run, i: nat, of: nat -> bool) returns (n: nat)
    requires i < |def.steps|
    ensures var s := StepOf(def, script, run, i);
            && Within(def, n)
            && Fires(s.end.calls, of) == Fires(run.calls, of) + (if of(i) then n else 0)
            && s.end.result.attempts == run.result.attempts + n
            && (n > 0 <==> script.create(i) == None && Booking(def, script, run, i).error == None)
  {
    var (b, max) := (Booking(def, script, run, i), MaxAttempts(def));
    ReserveFires(run, def.steps[i].receivers, script, i, 0, [], of);
    ReserveKeepsResult(run, def.steps[i].receivers, script, i, 0, []);
    if script.create(i) == None && b.error == None {
      var end := AttemptsMade(b.run, def.steps[i], script, i, 1, max, None, run.vars, of);
      n := end - 1;
    } else {
      n := 0;
    }
  }

  /** For every run: no step fires its trigger more often than the limit, twice if retry is switched
      off. */
  lemma FiresBounded(def: Definition, script: Script, runID: string, vars: Env, store: Mem, i: nat)
    ensures var n := Fires(Execute(def, script, runID, vars, store).calls, Step(i));
            && (!def.retryEnabled || def.retryAttempts <= 1 ==> n <= 1)
            && (def.retryEnabled && def.retryAttempts > 1 ==> n <= def.retryAttempts)
  {
    var of := Step(i);
    var law := Law(
      (r: Run, n: nat, debt: ()) => Within(def, Fires(r.calls, of)) && (n <= i ==> Fires(r.calls, of) == 0),
      (r: Run, debt: ()) => Within(def, Fires(r.calls, of)),
      (debt: (), reserved) => ());
    forall r: Run, n: nat, debt: () | n < |def.steps| && law.ready(r, n, debt)
      ensures StepKept(StepOf(def, script, r, n), n, law, debt)
    {
      var k := StepFires(def, script, r, n, of);
    }
    forall r: Run, reserved: seq<ReceiverConfig>, debt: () | law.ends(r, debt)
      ensures law.ends(Release(r, reserved), debt)
    {
      ReleaseFires(r, reserved, of);
    }
    if def.enabled { StepsKeep(def, script, Run(runID, NewResult(runID), vars, store, []), 0, law, ()); }
  }

  /** For every run: the attempts reported are the triggers fired. */
  lemma AttemptsReported(def: Definition, script: Script, runID: string, vars: Env, store: Mem)
    ensures var out := Execute(def, script, runID, vars, store); out.result.attempts == Fires(out.calls, AnyStep())
  {
    var of := AnyStep();
    var law := Law(
      (r: Run, n: nat, debt: ()) => r.result.attempts == Fires(r.calls, of),
      (r: Run, debt: ()) => r.result.attempts == Fires(r.calls, of),
      (debt: (), reserved) => ());
    forall r: Run, n: nat, debt: () | n < |def.steps| && law.ready(r, n, debt)
      ensures StepKept(StepOf(def, script, r, n), n, law, debt)
    {
      var k := StepFires(def, script, r, n, of);
    }
    forall r: Run, reserved: seq<ReceiverConfig>, debt: () | law.ends(r, debt)
      ensures law.ends(Release(r, reserved), debt)
    {
      ReleaseFires(r, reserved, of);
      ReleaseKeepsResult(r, reserved);
    }
    if def.enabled { StepsKeep(def, script, Run(runID, NewResult(runID), vars, store, []), 0, law, ()); }
  }

  lemma StepVariables(def: Definition, script: Script, run: Run, i: nat, s: Stepped)
    requires i < |def.steps| && s == StepOf(def, script, run, i)
    ensures !s.passed ==> s.end.result.triggerVars == s.end.vars
  {
  }

  /** For every run: the variables reported are those it ends with; a disabled run makes no call. */
  lemma VariablesReported(def: Definition, script: Script, runID: string, vars: Env, store: Mem)
    ensures var out := Execute(def, script, runID, vars, store);
            && (def.enabled ==> out.result.triggerVars == out.vars)
            && (!def.enabled ==> out.calls == [] && out.vars == vars && out.store == store)
  {
    var law := Law(
      (r: Run, n: nat, debt: ()) => true,
      (r: Run, debt: ()) => r.result.triggerVars == r.vars,
      (debt: (), reserved) => ());
    forall r: Run, n: nat, debt: () | n < |def.steps| && law.ready(r, n, debt)
      ensures StepKept(StepOf(def, script, r, n), n, law, debt)
    {
      StepVariables(def, script, r, n, StepOf(def, script, r, n));
    }
    forall r: Run, reserved: seq<ReceiverConfig>, debt: () | law.ends(r, debt)
      ensures law.ends(Release(r, reserved), debt)
    {
      ReleaseKeepsResult(r, reserved);
    }
    if def.enabled { StepsKeep(def, script, Run(runID, NewResult(runID), vars, store, []), 0, law, ()); }
  }

  // ---- Whole runs: exactly as often as allowed when every trigger fails ----

  /** From step n, with these reservations and variables, the trigger of step i is reached: every step
      before it passes, and it can be created and its recipients booked. */
  ghost predicate Reaches(def: Definition, script: Script, table: Table, runID: string, vars: Env, n: nat, i: nat)
    requires n <= i < |def.steps|
    decreases i - n
  {
    var booked := RetryLaws.BookAll(table, runID, RetryLaws.RequestsOf(def.steps[n].receivers, script, n, 0));
    && script.create(n) == None && booked.Some?
    && (n < i ==>
          && RetryLaws.StepGood(def, script, n, vars)
          && Reaches(def, script, booked.value, runID, RetryLaws.VarsAfter(script, n, MaxAttempts(def), vars), n + 1,
                     i))
  }

  /** Step n of a run that is passed so far, up to its trigger. */
  lemma StepReached(def: Definition, script: Script, run: Run, n: nat, s: Stepped)
    requires n < |def.steps| && Lifecycle.Schedules(def, script) && s == StepOf(def, script, run, n)
    requires run.result.status == Passed && run.result.error == ""
    ensures var booked := RetryLaws.BookAll(run.store.reservations, run.runID,
                                            RetryLaws.RequestsOf(def.steps[n].receivers, script, n, 0));
            && (Booking(def, script, run, n).error == None <==> booked.Some?)
            && (s.passed <==> script.create(n) == None && booked.Some? && RetryLaws.StepGood(def, script, n, run.vars))
            && (s.passed ==>
                  && s.end.result.status == Passed && s.end.result.error == "" && s.end.runID == run.runID
                  && s.end.store.reservations == booked.value
                  && s.end.vars == RetryLaws.VarsAfter(script, n, MaxAttempts(def), run.vars))
  {
    var b := Booking(def, script, run, n);
    RetryLaws.ReserveBooks(run, def.steps[n].receivers, script, n, 0, []);
    ReserveKeepsResult(run, def.steps[n].receivers, script, n, 0, []);
    RetryLaws.StepPasses(def, script, b.run, n);
  }

  predicate Clean(run: Run) {
    run.result.status == Passed && run.result.error == ""
  }

  ghost predicate ReachesFrom(def: Definition, script: Script, run: Run, n: nat, i: nat)
    requires n <= i < |def.steps|
  {
    Reaches(def, script, run.store.reservations, run.runID, run.vars, n, i)
  }

  lemma ReachesOn(def: Definition, script: Script, run: Run, n: nat, i: nat, s: Stepped)
    requires n < i < |def.steps| && Lifecycle.Schedules(def, script) && Clean(run) && s == StepOf(def, script, run, n)
    ensures ReachesFrom(def, script, run, n, i) <==> s.passed && ReachesFrom(def, script, s.end, n + 1, i)
    ensures s.passed ==> Clean(s.end)
    ensures s.passed ==> forall vars | run.vars == RetryLaws.VarsBefore(def, script, n, vars) ::
              s.end.vars == RetryLaws.VarsBefore(def, script, n + 1, vars)
  {
    StepReached(def, script, run, n, s);
  }

  /** Every trigger of the step fails, as often as it may be fired. */
  ghost predicate AllFail(def: Definition, script: Script, i: nat, vars: Env) {
    forall a: nat | 1 <= a && Within(def, a) :: Met(script, i, a, vars).TriggerFailed?
  }

  predicate Full(def: Definition, n: nat) {
    n == 0 || !Within(def, n + 1)
  }

  lemma StepFiresFully(def: Definition, script: Script, run: Run, i: nat)
    requires i < |def.steps| && AllFail(def, script, i, run.vars)
    ensures Fires(run.calls, Step(i)) == 0 ==> Full(def, Fires(StepOf(def, script, run, i).end.calls, Step(i)))
  {
    var (b, max, of) := (Booking(def, script, run, i), MaxAttempts(def), Step(i));
    ReserveFires(run, def.steps[i].receivers, script, i, 0, [], of);
    ReserveKeepsResult(run, def.steps[i].receivers, script, i, 0, []);
    if script.create(i) == None && b.error == None {
      assert forall c: nat | 1 <= c <= max :: Within(def, c);
      var end := AttemptsMade(b.run, def.steps[i], script, i, 1, max, None, run.vars, of);
    }
  }

  /** The run at the top of step n, when its steps started with these variables, and step i is reached
      exactly if reached says so. */
  ghost predicate OnTheWay(def: Definition, script: Script, r: Run, n: nat, i: nat, vars: Env, reached: bool)
    requires i < |def.steps|
  {
    && Clean(r) && n <= i && Fires(r.calls, Step(i)) == 0 && r.vars == RetryLaws.VarsBefore(def, script, n, vars)
    && (reached <==> ReachesFrom(def, script, r, n, i))
  }

  /** Step i is over: it was fired if it was reached, and if all its triggers fail as often as allowed. */
  ghost predicate Over(def: Definition, script: Script, r: Run, i: nat, vars: Env, reached: bool) {
    && (Fires(r.calls, Step(i)) > 0 <==> reached)
    && (AllFail(def, script, i, RetryLaws.VarsBefore(def, script, i, vars)) ==> Full(def, Fires(r.calls, Step(i))))
  }

  lemma StepBefore(def: Definition, script: Script, r: Run, n: nat, i: nat, vars: Env, reached: bool, s: Stepped)
    requires n < i < |def.steps| && Lifecycle.Schedules(def, script) && OnTheWay(def, script, r, n, i, vars, reached)
    requires s == StepOf(def, script, r, n)
    ensures if s.passed then OnTheWay(def, script, s.end, n + 1, i, vars, reached)
            else Over(def, script, s.end, i, vars, reached)
  {
    ReachesOn(def, script, r, n, i, s);
    var fired := StepFires(def, script, r, n, Step(i));
  }

  lemma StepItself(def: Definition, script: Script, r: Run, i: nat, vars: Env, reached: bool)
    requires i < |def.steps| && Lifecycle.Schedules(def, script) && OnTheWay(def, script, r, i, i, vars, reached)
    ensures Over(def, script, StepOf(def, script, r, i).end, i, vars, reached)
  {
    FiredIfBooked(def, script, r, i);
    if AllFail(def, script, i, r.vars) { StepFiresFully(def, script, r, i); }
  }

  lemma StepAfter(def: Definition, script: Script, r: Run, n: nat, i: nat, vars: Env, reached: bool)
    requires i < n < |def.steps| && Over(def, script, r, i, vars, reached)
    ensures Over(def, script, StepOf(def, script, r, n).end, i, vars, reached)
  {
    var fired := StepFires(def, script, r, n, Step(i));
  }

  /** The trigger of step i, when the run gets there. */
  lemma FiredIfBooked(def: Definition, script: Script, run: Run, i: nat)
    requires i < |def.steps| && Lifecycle.Schedules(def, script) && Clean(run) && Fires(run.calls, Step(i)) == 0
    ensures Fires(StepOf(def, script, run, i).end.calls, Step(i)) > 0 <==> ReachesFrom(def, script, run, i, i)
  {
    var fired := StepFires(def, script, run, i, Step(i));
    StepReached(def, script, run, i, StepOf(def, script, run, i));
  }

  /** The run at the top of step n, before or after step i. */
  ghost predicate AtTop(def: Definition, script: Script, r: Run, n: nat, i: nat, vars: Env, reached: bool)
    requires i < |def.steps|
  {
    if n <= i then OnTheWay(def, script, r, n, i, vars, reached) else Over(def, script, r, i, vars, reached)
  }

  lemma EveryStep(def: Definition, script: Script, r: Run, n: nat, i: nat, vars: Env, reached: bool, s: Stepped)
    requires i < |def.steps| && n < |def.steps| && Lifecycle.Schedules(def, script)
    requires AtTop(def, script, r, n, i, vars, reached) && s == StepOf(def, script, r, n)
    ensures if s.passed then AtTop(def, script, s.end, n + 1, i, vars, reached)
            else Over(def, script, s.end, i, vars, reached)
  {
    if n < i {
      StepBefore(def, script, r, n, i, vars, reached, s);
    } else if n == i {
      StepItself(def, script, r, i, vars, reached);
    } else {
      StepAfter(def, script, r, n, i, vars, reached);
    }
  }

  lemma EndAndReleases(def: Definition, script: Script, r: Run, i: nat, vars: Env, reached: bool,
                       reserved: seq<ReceiverConfig>)
    requires i < |def.steps|
    ensures AtTop(def, script, r, |def.steps|, i, vars, reached) ==> Over(def, script, KeepVars(r), i, vars, reached)
    ensures Over(def, script, r, i, vars, reached) ==> Over(def, script, Release(r, reserved), i, vars, reached)
  {
    ReleaseFires(r, reserved, Step(i));
  }

  ghost function Course(def: Definition, script: Script, i: nat, vars: Env, reached: bool): Law<()>
    requires i < |def.steps|
  {
    Law((r: Run, n: nat, debt: ()) => AtTop(def, script, r, n, i, vars, reached),
        (r: Run, debt: ()) => Over(def, script, r, i, vars, reached),
        (debt: (), reserved) => ())
  }

  lemma CourseStep(def: Definition, script: Script, i: nat, vars: Env, reached: bool, law: Law<()>, r: Run, n: nat,
                   s: Stepped)
    requires i < |def.steps| && n < |def.steps| && Lifecycle.Schedules(def, script)
    requires law == Course(def, script, i, vars, reached) && law.ready(r, n, ()) && s == StepOf(def, script, r, n)
    ensures StepKept(s, n, law, ())
  {
    EveryStep(def, script, r, n, i, vars, reached, s);
  }

  lemma CourseEnds(def: Definition, script: Script, i: nat, vars: Env, reached: bool, law: Law<()>, r: Run,
                   reserved: seq<ReceiverConfig>)
    requires i < |def.steps| && law == Course(def, script, i, vars, reached)
    ensures law.ready(r, |def.steps|, ()) ==> law.ends(KeepVars(r), ())
    ensures law.ends(r, ()) ==> law.ends(Release(r, reserved), ())
  {
    EndAndReleases(def, script, r, i, vars, reached, reserved);
  }

  lemma CourseKept(def: Definition, script: Script, i: nat, vars: Env, reached: bool, law: Law<()>)
    requires i < |def.steps| && Lifecycle.Schedules(def, script) && law == Course(def, script, i, vars, reached)
    ensures Kept(def, script, law)
  {
    forall r: Run, n: nat, debt: () | n < |def.steps| && law.ready(r, n, debt)
      ensures StepKept(StepOf(def, script, r, n), n, law, debt)
    {
      CourseStep(def, script, i, vars, reached, law, r, n, StepOf(def, script, r, n));
    }
    forall r: Run, debt: () | law.ready(r, |def.steps|, debt) ensures law.ends(KeepVars(r), debt) {
      CourseEnds(def, script, i, vars, reached, law, r, []);
    }
    forall r: Run, reserved: seq<ReceiverConfig>, debt: () | law.ends(r, law.grow(debt, reserved))
      ensures law.ends(Release(r, reserved), debt)
    {
      CourseEnds(def, script, i, vars, reached, law, r, reserved);
    }
  }

  lemma RunOver(def: Definition, script: Script, run: Run, i: nat, vars: Env, reached: bool)
    requires i < |def.steps| && Lifecycle.Schedules(def, script) && AtTop(def, script, run, 0, i, vars, reached)
    ensures Over(def, script, StepsFrom(def, script, run, 0), i, vars, reached)
  {
    var law := Course(def, script, i, vars, reached);
    CourseKept(def, script, i, vars, reached, law);
    StepsKeep(def, script, run, 0, law, ());
  }

  /** For every run: the trigger of a step is fired at all if and only if it is reached. */
  lemma FiresWhenReached(def: Definition, script: Script, runID: string, vars: Env, store: Mem, i: nat)
    requires def.enabled && i < |def.steps| && Lifecycle.Schedules(def, script)
    ensures Fires(Execute(def, script, runID, vars, store).calls, Step(i)) > 0 <==>
            Reaches(def, script, store.reservations, runID, vars, 0, i)
  {
    var run := Run(runID, NewResult(runID), vars, store, []);
    RunOver(def, script, run, i, vars, Reaches(def, script, store.reservations, runID, vars, 0, i));
  }

  /** For every run: the trigger of a step that is reached, and whose every trigger within the limit
      fails, is fired exactly as often as the limit says: once, unless retry is enabled for more. */
  lemma FiresExactly(def: Definition, script: Script, runID: string, vars: Env, store: Mem, i: nat)
    requires def.enabled && i < |def.steps| && Lifecycle.Schedules(def, script)
    requires AllFail(def, script, i, RetryLaws.VarsBefore(def, script, i, vars))
    ensures Fires(Execute(def, script, runID, vars, store).calls, Step(i)) ==
            if !Reaches(def, script, store.reservations, runID, vars, 0, i) then 0
            else if def.retryEnabled && def.retryAttempts > 1 then def.retryAttempts
            else 1
  {
    FiresBounded(def, script, runID, vars, store, i);
    var run := Run(runID, NewResult(runID), vars, store, []);
    RunOver(def, script, run, i, vars, Reaches(def, script, store.reservations, runID, vars, 0, i));
  }
}
