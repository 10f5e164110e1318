/** What a step ends with, over all its attempts, told from what its trigger and its receivers answer. */
module StepOutcomes {
  import opened Text
  import opened Domain
  import opened Engine
  import opened EngineLaws
  import opened Outcomes
  import opened TriggerCalls
  import Lifecycle

  /** In some attempt from a up to but without b the trigger fired, and a collection was spoiled. */
  ghost predicate SpoiledIn(script: Script, i: nat, a: nat, b: nat, vars: Env, n: nat) {
    exists c: nat | a <= c < b :: Met(script, i, c, vars).Fired? && SomeSpoiled(script, i, c, n)
  }

  /** The same of a violated assertion. */
  ghost predicate ViolatedIn(script: Script, i: nat, a: nat, b: nat, vars: Env, n: nat) {
    exists c: nat | a <= c < b :: Met(script, i, c, vars).Fired? && SomeViolates(script, i, c, n)
  }

  /** What the attempts from a up to but without b make of the status. */
  ghost predicate Judged(entry: Status, t: Tried, script: Script, i: nat, a: nat, b: nat, vars: Env, n: nat) {
    && Worse(entry, SpoiledIn(script, i, a, b, vars, n), ViolatedIn(script, i, a, b, vars, n), t.run.result.status)
    && (t.passed ==> t.run.result.status == Passed)
  }

  lemma WorseTwice(x: Status, y: Status, z: Status, e1: bool, f1: bool, e2: bool, f2: bool)
    requires Verdictable(x) && Worse(x, e1, f1, y) && Worse(y, e2, f2, z)
    ensures Worse(x, e1 || e2, f1 || f2, z) && Verdictable(y)
  {
  }

  lemma JudgedMore(entry: Status, mid: Tried, t: Tried, script: Script, i: nat, a: nat, b: nat, vars: Env, n: nat)
    requires Verdictable(entry) && a < b && Judged(entry, mid, script, i, a, a + 1, vars, n)
    requires Judged(mid.run.result.status, t, script, i, a + 1, b, vars, n)
    ensures Judged(entry, t, script, i, a, b, vars, n)
  {
    WorseTwice(entry, mid.run.result.status, t.run.result.status,
               SpoiledIn(script, i, a, a + 1, vars, n), ViolatedIn(script, i, a, a + 1, vars, n),
               SpoiledIn(script, i, a + 1, b, vars, n), ViolatedIn(script, i, a + 1, b, vars, n));
  }

  /** All receivers of the step start, in every attempt, and all finish. */
  ghost predicate AllRun(script: Script, step: StepConfig, i: nat) {
    forall a :: AllStart(script, i, a, |step.receivers|) && Lifecycle.IsSchedule(script.order(i, a), |step.receivers|)
  }

  lemma OneAttempt(script: Script, i: nat, a: nat, vars: Env, n: nat)
    ensures SpoiledIn(script, i, a, a + 1, vars, n) <==> Met(script, i, a, vars).Fired? && SomeSpoiled(script, i, a, n)
    ensures ViolatedIn(script, i, a, a + 1, vars, n) <==>
            Met(script, i, a, vars).Fired? && SomeViolates(script, i, a, n)
  {
  }

  lemma FiredJudged(next: Run, step: StepConfig, script: Script, i: nat, a: nat, vars: Env, lastError: Option<string>)
    requires Waits(step) && AllRun(script, step, i) && Verdictable(next.result.status)
    requires Met(script, i, a, vars).Fired?
    ensures var (done, passed, again) := Receive(next, step, script, i, a);
            && again
            && Judged(next.result.status, Tried(done, passed, lastError), script, i, a, a + 1, vars, |step.receivers|)
  {
    OneAttempt(script, i, a, vars, |step.receivers|);
    Received(next, step, script, i, a);
  }

  lemma FailedJudged(next: Run, script: Script, i: nat, a: nat, vars: Env, lastError: Option<string>, n: nat)
    requires Met(script, i, a, vars).TriggerFailed? && Verdictable(next.result.status)
    ensures Judged(next.result.status, Tried(next, false, lastError), script, i, a, a + 1, vars, n)
  {
    OneAttempt(script, i, a, vars, n);
  }

  lemma AttemptJudged(run: Run, step: StepConfig, script: Script, i: nat, a: nat, lastError: Option<string>, vars: Env)
    requires Waits(step) && AllRun(script, step, i) && Verdictable(run.result.status)
    requires run.vars == VarsMet(script, i, a, vars)
    ensures var t := Attempt(run, step, script, i, a, lastError);
            && Judged(run.result.status, t.tried, script, i, a, a + 1, vars, |step.receivers|)
            && (t.again <==> !t.tried.passed)
  {
    var next := NextAttempt(run, i, a);
    match script.execute(i, a, run.vars)
    case TriggerFailed(left, e) => FailedJudged(next.(vars := left), script, i, a, vars, Some(e), |step.receivers|);
    case Fired(left, extracted) =>
      FiredJudged(next.(vars := left + extracted), step, script, i, a, vars, lastError);
  }

  /** The attempts that are made, when they end before attempt end. */
  ghost predicate Ran(entry: Run, t: Tried, script: Script, i: nat, a: nat, end: nat, max: nat, vars: Env, n: nat) {
    && t.lastError == LatestError(script, i, end, vars)
    && Judged(entry.result.status, t, script, i, a, end, vars, n)
    && (t.passed || end == max + 1) && end <= max + 1 && (a <= max ==> a < end)
  }

  lemma RanMore(entry: Run, mid: Tried, t: Tried, script: Script, i: nat, a: nat, end: nat, max: nat, vars: Env, n: nat)
    requires Verdictable(entry.result.status) && a <= max && a < end
    requires Judged(entry.result.status, mid, script, i, a, a + 1, vars, n)
    requires Ran(mid.run, t, script, i, a + 1, end, max, vars, n)
    ensures Ran(entry, t, script, i, a, end, max, vars, n)
  {
    JudgedMore(entry.result.status, mid, t, script, i, a, end, vars, n);
  }

  /** The run before attempt a. */
  ghost predicate Before(run: Run, script: Script, i: nat, a: nat, lastError: Option<string>, vars: Env) {
    && 1 <= a && Verdictable(run.result.status)
    && run.vars == VarsMet(script, i, a, vars) && lastError == LatestError(script, i, a, vars)
  }

  lemma OneMore(run: Run, step: StepConfig, script: Script, i: nat, a: nat, lastError: Option<string>, vars: Env,
                t: Attempted)
    requires Waits(step) && AllRun(script, step, i) && Before(run, script, i, a, lastError, vars)
    requires t == Attempt(run, step, script, i, a, lastError)
    ensures Before(t.tried.run, script, i, a + 1, t.tried.lastError, vars) && (t.again <==> !t.tried.passed)
    ensures Judged(run.result.status, t.tried, script, i, a, a + 1, vars, |step.receivers|)
  {
    AttemptMade(run, step, script, i, a, lastError, vars, Step(i));
    AttemptJudged(run, step, script, i, a, lastError, vars);
  }

  lemma RanOnce(run: Run, t: Tried, script: Script, i: nat, a: nat, max: nat, vars: Env, n: nat)
    requires t.passed && a <= max && Before(t.run, script, i, a + 1, t.lastError, vars)
    requires Judged(run.result.status, t, script, i, a, a + 1, vars, n)
    ensures Ran(run, t, script, i, a, a + 1, max, vars, n)
  {
  }

  lemma RanOut(run: Run, script: Script, i: nat, max: nat, lastError: Option<string>, vars: Env, n: nat)
    requires Before(run, script, i, max + 1, lastError, vars)
    ensures Ran(run, Tried(run, false, lastError), script, i, max + 1, max + 1, max, vars, n)
  {
  }

  /** The attempt loop ends when an attempt passes, and not before the limit otherwise. */
  lemma {:induction false} AttemptsJudged(run: Run, step: StepConfig, script: Script, i: nat, a: nat, max: nat,
                                          lastError: Option<string>, vars: Env, out: Tried) returns (end: nat)
    requires a <= max + 1 && Waits(step) && AllRun(script, step, i) && Before(run, script, i, a, lastError, vars)
    requires out == AttemptFrom(run, step, script, i, a, max, lastError)
    ensures a <= end && Ran(run, out, script, i, a, end, max, vars, |step.receivers|)
    decreases max + 1 - a
  {
    if a > max {
      end := a;
      RanOut(run, script, i, max, lastError, vars, |step.receivers|);
    } else {
      var t := Attempt(run, step, script, i, a, lastError);
      OneMore(run, step, script, i, a, lastError, vars, t);
      if t.again {
        end := AttemptsJudged(t.tried.run, step, script, i, a + 1, max, t.tried.lastError, vars, out);
        RanMore(run, t.tried, out, script, i, a, end, max, vars, |step.receivers|);
      } else {
        end := a + 1;
        RanOnce(run, out, script, i, a, max, vars, |step.receivers|);
      }
    }
  }

  /** How step i starts: it can be created and booked, from a run that is passed so far, and it waits
      for receivers that all start. */
  ghost predicate Underway(def: Definition, script: Script, run: Run, i: nat)
    requires i < |def.steps|
  {
    && Clean(run) && script.create(i) == None && Booking(def, script, run, i).error == None
    && Waits(def.steps[i]) && AllRun(script, def.steps[i], i)
  }

  /** Failed if no trigger failed, no collection was spoiled, and some first bad check is violated; in
      error if some trigger failed, or some collection was spoiled. */
  predicate EndStatus(passed: bool, error: Option<string>, spoiled: bool, violated: bool, status: Status) {
    && (status == Passed <==> passed)
    && (status == Failed <==> error == None && !spoiled && violated)
    && (status == Error <==> !passed && (error.Some? || spoiled))
  }

  lemma Ended(def: Definition, script: Script, run: Run, i: nat, t: Tried, s: Stepped, spoiled: bool, violated: bool)
    requires i < |def.steps| && Underway(def, script, run, i)
    requires t == Trying(def, script, run, i) && s == StepOf(def, script, run, i)
    requires Worse(Passed, spoiled, violated, t.run.result.status) && (t.passed ==> t.run.result.status == Passed)
    requires !t.passed ==> t.lastError.Some? || t.run.result.status != Passed
    ensures EndStatus(s.passed, t.lastError, spoiled, violated, s.end.result.status) && s.passed == t.passed
    ensures !s.passed && t.lastError.Some? ==>
              s.end.result.error == "step " + FormatNat(i + 1) + " trigger failed: " + t.lastError.value
  {
  }

  lemma StepTried(def: Definition, script: Script, run: Run, i: nat, t: Tried) returns (end: nat)
    requires i < |def.steps| && Underway(def, script, run, i) && t == Trying(def, script, run, i)
    ensures Ran(run, t, script, i, 1, end, MaxAttempts(def), run.vars, |def.steps[i].receivers|)
  {
    var start := Booking(def, script, run, i).run;
    ReserveKeepsResult(run, def.steps[i].receivers, script, i, 0, []);
    end := AttemptsJudged(start, def.steps[i], script, i, 1, MaxAttempts(def), None, run.vars, t);
  }

  lemma Limited(def: Definition, b: nat)
    requires 1 <= b
    ensures b <= MaxAttempts(def) <==> Within(def, b)
  {
  }

  lemma TriedTold(def: Definition, script: Script, run: Run, i: nat, t: Tried)
    requires i < |def.steps| && Clean(run) && t == Trying(def, script, run, i)
    ensures !t.passed ==> t.lastError.Some? || t.run.result.status != Passed
  {
    ReserveKeepsResult(run, def.steps[i].receivers, script, i, 0, []);
    AttemptsSettled(Booking(def, script, run, i).run, def.steps[i], script, i, 1, MaxAttempts(def), None);
  }

  /** One step, after the b attempts it makes. It ends failed if and only if no trigger failed, no
      collection was spoiled, and some first bad check is violated; it ends in error if and only if it
      did not pass and some trigger failed or some collection was spoiled. It makes as many attempts as
      it may unless one passes. */
  lemma StepEnds(def: Definition, script: Script, run: Run, i: nat) returns (b: nat)
    requires i < |def.steps| && Underway(def, script, run, i)
    ensures var (s, n) := (StepOf(def, script, run, i), |def.steps[i].receivers|);
            && EndStatus(s.passed, LatestError(script, i, b + 1, run.vars),
                         SpoiledIn(script, i, 1, b + 1, run.vars, n), ViolatedIn(script, i, 1, b + 1, run.vars, n),
                         s.end.result.status)
            && 1 <= b && Within(def, b) && (!s.passed ==> !Within(def, b + 1))
            && (!s.passed && LatestError(script, i, b + 1, run.vars).Some? ==>
                  s.end.result.error ==
                  "step " + FormatNat(i + 1) + " trigger failed: " + LatestError(script, i, b + 1, run.vars).value)
  {
    var (t, n) := (Trying(def, script, run, i), |def.steps[i].receivers|);
    var end := StepTried(def, script, run, i, t);
    b := end - 1;
    Limited(def, b);
    Limited(def, b + 1);
    TriedTold(def, script, run, i, t);
    Ended(def, script, run, i, t, StepOf(def, script, run, i),
          SpoiledIn(script, i, 1, b + 1, run.vars, n), ViolatedIn(script, i, 1, b + 1, run.vars, n));
  }

  /** A step that does not pass decides the run. */
  lemma StepDecides(def: Definition, script: Script, run: Run, i: nat)
    requires i < |def.steps| && !StepOf(def, script, run, i).passed
    ensures StepsFrom(def, script, run, i).result == StepOf(def, script, run, i).end.result
  {
    var s := StepOf(def, script, run, i);
    StepsUnfold(def, script, run, i, s);
    ReleaseKeepsResult(s.end, s.reserved);
  }
}
