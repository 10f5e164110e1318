/** Laws of every run of the engine: no silent failure, and the confluent merge of receivers. */
module EngineLaws {
  import opened Text
  import opened Sequences
  import opened Domain
  import opened Stores
  import opened Engine

  // ---- No silent failure ----

  predicate Verdictable(s: Status) {
    s == Passed || s == Failed || s == Error
  }

  /** The status is a verdict, and it is passed exactly when there is no error text. */
  predicate Settled(run: Run) {
    Verdictable(run.result.status) && (run.result.status == Passed <==> run.result.error == "")
  }

  predicate HasFailure(rs: seq<ReceiverResult>) {
    exists r <- rs :: r.status == Failed || r.status == Error
  }

  lemma {:induction false} VerdictStatus(rr: ReceiverResult, checks: seq<CheckOutcome>)
    requires Verdictable(rr.status)
    ensures Verdictable(CheckAll(rr, checks).status) && CheckAll(rr, checks).triggerIndex == rr.triggerIndex
    ensures rr.status == Passed ==> (CheckAll(rr, checks).status == Passed <==> forall c <- checks :: c == Holds)
    decreases |checks|
  {
    if checks != [] {
      VerdictStatus(rr, checks[1..]);
      assert checks[0] in checks && forall c :: c in checks <==> c == checks[0] || c in checks[1..];
      assert checks[0] != Holds ==> CheckAll(rr, checks).status != Passed;
    }
  }

  lemma VerdictShape(script: Script, i: nat, a: nat, kind: string, r: nat)
    ensures var v := Verdict(script, i, a, kind, r); Verdictable(v.status) && v.triggerIndex == i
  {
    var rr := ReceiverResult(kind, i, Passed, "");
    match script.collect(i, a, r)
    case CollectFailed(_) =>
    case Collected(checks) => VerdictStatus(rr, checks);
  }

  lemma {:induction false} SummaryTells(rs: seq<ReceiverResult>)
    ensures Summary(rs) != "" <==> HasFailure(rs)
    decreases |rs|
  {
    if rs != [] {
      SummaryTells(rs[1..]);
      assert rs == [rs[0]] + rs[1..];
    }
  }

  /** The results the goroutines append, in completion order. */
  function Verdicts(cs: seq<ReceiverConfig>, script: Script, i: nat, a: nat, order: seq<nat>): seq<ReceiverResult> {
    seq(|order|, n requires 0 <= n < |order| => Verdict(script, i, a, KindAt(cs, order[n]), order[n]))
  }

  function MergeAll(result: TestResult, vs: seq<ReceiverResult>): TestResult
    decreases |vs|
  {
    if vs == [] then result else MergeAll(Merge(result, vs[0]), vs[1..])
  }

  lemma {:induction false} MergeFromIsMergeAll(run: Run, cs: seq<ReceiverConfig>, script: Script, i: nat, a: nat,
                                               order: seq<nat>)
    ensures var out := MergeFrom(run, cs, script, i, a, order);
            && out.result == MergeAll(run.result, Verdicts(cs, script, i, a, order))
            && out == run.(result := out.result, store := out.store, calls := out.calls)
            && out.store.reservations == run.store.reservations
    decreases |order|
  {
    if order != [] {
      var r := order[0];
      var kind := KindAt(cs, r);
      var v := Verdict(script, i, a, kind, r);
      MergeFromIsMergeAll(Finish(run, script, i, a, kind, r), cs, script, i, a, order[1..]);
      assert Verdicts(cs, script, i, a, order) == [v] + Verdicts(cs, script, i, a, order[1..]);
    }
  }

  /** The messages that the receivers of these goroutines collected. */
  function Consumed(runID: string, cs: seq<ReceiverConfig>, script: Script, i: nat, a: nat,
                    order: seq<nat>): set<string> {
    set r | r in order && script.collect(i, a, r).Collected? :: Key(runID, KindAt(cs, r))
  }

  /** Exactly the collected messages are deleted, whether their assertions hold or not; the other
      messages and all reservations stay. */
  lemma {:induction false} MergeDeletes(run: Run, cs: seq<ReceiverConfig>, script: Script, i: nat, a: nat,
                                        order: seq<nat>)
    ensures var out := MergeFrom(run, cs, script, i, a, order).store;
            && out.messages == run.store.messages - Consumed(run.runID, cs, script, i, a, order)
            && out.reservations == run.store.reservations
    decreases |order|
  {
    if order == [] {
      assert Consumed(run.runID, cs, script, i, a, []) == {};
    } else {
      var r := order[0];
      MergeDeletes(Finish(run, script, i, a, KindAt(cs, r), r), cs, script, i, a, order[1..]);
      assert forall n :: n in order <==> n == r || n in order[1..];
    }
  }

  lemma VerdictsVerdictable(cs: seq<ReceiverConfig>, script: Script, i: nat, a: nat, order: seq<nat>)
    ensures forall n | 0 <= n < |order| :: Verdictable(Verdicts(cs, script, i, a, order)[n].status)
  {
    forall n | 0 <= n < |order| ensures Verdictable(Verdicts(cs, script, i, a, order)[n].status) {
      VerdictShape(script, i, a, KindAt(cs, order[n]), order[n]);
    }
  }

  /** s is the maximum of the entry status and the receiver statuses, under passed < failed < error. */
  ghost predicate IsMaximum(s: Status, entry: Status, vs: seq<ReceiverResult>) {
    && Verdictable(s) && Rank(entry) <= Rank(s)
    && (forall v <- vs :: Rank(v.status) <= Rank(s))
    && (s == entry || exists v <- vs :: v.status == s)
  }

  /** The merge keeps the maximum and appends every result. */
  lemma {:induction false} MergeIsMaximum(result: TestResult, vs: seq<ReceiverResult>)
    requires Verdictable(result.status) && forall n | 0 <= n < |vs| :: Verdictable(vs[n].status)
    ensures var out := MergeAll(result, vs);
            && IsMaximum(out.status, result.status, vs)
            && out == result.(receivers := result.receivers + vs, status := out.status)
    decreases |vs|
  {
    if vs != [] {
      var next := Merge(result, vs[0]);
      MergeIsMaximum(next, vs[1..]);
      assert result.receivers + [vs[0]] + vs[1..] == result.receivers + vs;
      assert forall v :: v in vs <==> v == vs[0] || v in vs[1..];
      assert next.status == vs[0].status || next.status == result.status;
    }
  }

  lemma VerdictsSame(cs: seq<ReceiverConfig>, script: Script, i: nat, a: nat, o1: seq<nat>, o2: seq<nat>)
    requires multiset(o1) == multiset(o2)
    ensures multiset(Verdicts(cs, script, i, a, o1)) == multiset(Verdicts(cs, script, i, a, o2))
  {
    var f := (r: nat) => Verdict(script, i, a, KindAt(cs, r), r);
    MappedSame(f, o1, o2);
    assert Verdicts(cs, script, i, a, o1) == Mapped(f, o1) && Verdicts(cs, script, i, a, o2) == Mapped(f, o2);
  }

  /** The merge is confluent: every completion order of the goroutines gives the same status and
      the same multiset of results. */
  lemma MergeConfluent(run: Run, cs: seq<ReceiverConfig>, script: Script, i: nat, a: nat, o1: seq<nat>, o2: seq<nat>)
    requires Verdictable(run.result.status) && multiset(o1) == multiset(o2)
    ensures var x := MergeFrom(run, cs, script, i, a, o1).result;
            var y := MergeFrom(run, cs, script, i, a, o2).result;
            x.status == y.status && multiset(x.receivers) == multiset(y.receivers)
  {
    MergeFromIsMergeAll(run, cs, script, i, a, o1);
    MergeFromIsMergeAll(run, cs, script, i, a, o2);
    var vs, ws := Verdicts(cs, script, i, a, o1), Verdicts(cs, script, i, a, o2);
    VerdictsVerdictable(cs, script, i, a, o1);
    VerdictsVerdictable(cs, script, i, a, o2);
    MergeIsMaximum(run.result, vs);
    MergeIsMaximum(run.result, ws);
    VerdictsSame(cs, script, i, a, o1, o2);
    assert forall v :: v in vs <==> v in multiset(vs);
    assert forall v :: v in ws <==> v in multiset(ws);
    MaximumUnique(MergeAll(run.result, vs).status, MergeAll(run.result, ws).status, run.result.status, vs, ws);
  }

  lemma MaximumUnique(s: Status, t: Status, entry: Status, vs: seq<ReceiverResult>, ws: seq<ReceiverResult>)
    requires IsMaximum(s, entry, vs) && IsMaximum(t, entry, ws) && forall v :: v in vs <==> v in ws
    ensures s == t
  {
    assert Rank(s) <= Rank(t) <= Rank(s);
  }

  lemma CollectAllSettled(run: Run, cs: seq<ReceiverConfig>, script: Script, i: nat, a: nat)
    requires Settled(run)
    ensures Settled(CollectAll(run, cs, script, i, a))
  {
    var order := script.order(i, a);
    MergeFromIsMergeAll(run, cs, script, i, a, order);
    VerdictsVerdictable(cs, script, i, a, order);
    MergeIsMaximum(run.result, Verdicts(cs, script, i, a, order));
    var merged := MergeFrom(run, cs, script, i, a, order);
    if run.result.status == Passed && merged.result.status != Passed {
      var v :| v in Verdicts(cs, script, i, a, order) && v.status == merged.result.status;
      assert v in merged.result.receivers;
    }
    SummaryTells(merged.result.receivers);
  }

  lemma {:induction false} StartKeepsResult(run: Run, n: nat, script: Script, i: nat, a: nat, r: nat)
    requires r <= n
    ensures var out := StartFrom(run, n, script, i, a, r).0; out == run.(calls := out.calls)
    decreases n - r
  {
    if r < n && script.start(i, a, r) == None {
      StartKeepsResult(Called(run, Started(i, a, r)), n, script, i, a, r + 1);
    }
  }

  lemma {:induction false} StopKeepsResult(run: Run, n: nat, i: nat, a: nat, r: nat)
    requires r <= n
    ensures var out := StopFrom(run, n, i, a, r); out == run.(calls := out.calls)
    decreases n - r
  {
    if r < n { StopKeepsResult(Called(run, Stopped(i, a, r)), n, i, a, r + 1); }
  }

  /** A fired attempt touches neither the run id, nor the variables, nor any reservation. */
  lemma ReceiveKeeps(run: Run, step: StepConfig, script: Script, i: nat, a: nat)
    ensures var done := Receive(run, step, script, i, a).0;
            && done.runID == run.runID && done.vars == run.vars && done.store.reservations == run.store.reservations
            && done.result.attempts == run.result.attempts
  {
    if !NoWait(step) {
      var n := |step.receivers|;
      StartKeepsResult(run, n, script, i, a, 0);
      var (started, error) := StartFrom(run, n, script, i, a, 0);
      if error == None {
        MergeFromIsMergeAll(started, step.receivers, script, i, a, script.order(i, a));
        MergeKeepsAttempts(started.result, Verdicts(step.receivers, script, i, a, script.order(i, a)));
        StopKeepsResult(CollectAll(started, step.receivers, script, i, a), n, i, a, 0);
      }
    }
  }

  lemma {:induction false} MergeKeepsAttempts(result: TestResult, vs: seq<ReceiverResult>)
    ensures MergeAll(result, vs).attempts == result.attempts
    decreases |vs|
  {
    if vs != [] { MergeKeepsAttempts(Merge(result, vs[0]), vs[1..]); }
  }

  lemma AttemptKeeps(run: Run, step: StepConfig, script: Script, i: nat, a: nat, lastError: Option<string>)
    ensures var done := Attempt(run, step, script, i, a, lastError).tried.run;
            && done.runID == run.runID && done.store.reservations == run.store.reservations
            && done.result.attempts == run.result.attempts + 1
            && done.vars == Left(script.execute(i, a, run.vars))
  {
    var next := NextAttempt(run, i, a);
    match script.execute(i, a, run.vars)
    case TriggerFailed(_, _) =>
    case Fired(vars, extracted) => ReceiveKeeps(next.(vars := vars + extracted), step, script, i, a);
  }

  /** The variables a trigger leaves to the run. */
  function Left(t: Trigger): Env {
    match t case TriggerFailed(vars, _) => vars case Fired(vars, extracted) => vars + extracted
  }

  lemma {:induction false} AttemptsKeep(run: Run, step: StepConfig, script: Script, i: nat, a: nat, max: nat,
                                        lastError: Option<string>)
    ensures var t := AttemptFrom(run, step, script, i, a, max, lastError);
            t.run.runID == run.runID && t.run.store.reservations == run.store.reservations
    decreases max + 1 - a
  {
    if a <= max {
      var t := Attempt(run, step, script, i, a, lastError);
      AttemptKeeps(run, step, script, i, a, lastError);
      if t.again { AttemptsKeep(t.tried.run, step, script, i, a + 1, max, t.tried.lastError); }
    }
  }

  lemma ReceiveSettled(run: Run, step: StepConfig, script: Script, i: nat, a: nat)
    requires Settled(run)
    ensures var (done, passed, again) := Receive(run, step, script, i, a);
            && Settled(done)
            && (!NoWait(step) ==> (passed <==> done.result.status == Passed))
            && (NoWait(step) ==> passed && done == run)
  {
    if !NoWait(step) {
      StartKeepsResult(run, |step.receivers|, script, i, a, 0);
      var (started, error) := StartFrom(run, |step.receivers|, script, i, a, 0);
      if error == None {
        CollectAllSettled(started, step.receivers, script, i, a);
        StopKeepsResult(CollectAll(started, step.receivers, script, i, a), |step.receivers|, i, a, 0);
      }
    }
  }

  /** A step ends passed with no error text, or not passed with something to tell. */
  predicate Told(t: Tried) {
    && Settled(t.run)
    && (t.passed ==> t.run.result.status == Passed && t.run.result.error == "")
    && (!t.passed ==> t.lastError.Some? || t.run.result.status != Passed)
  }

  lemma AttemptSettled(run: Run, step: StepConfig, script: Script, i: nat, a: nat, lastError: Option<string>)
    requires Settled(run) && (NoWait(step) ==> run.result.status == Passed)
    ensures var t := Attempt(run, step, script, i, a, lastError);
            Told(t.tried) && (NoWait(step) && t.again ==> t.tried.run.result.status == Passed)
  {
    var next := NextAttempt(run, i, a);
    match script.execute(i, a, run.vars)
    case TriggerFailed(_, _) =>
    case Fired(vars, extracted) => ReceiveSettled(next.(vars := vars + extracted), step, script, i, a);
  }

  lemma {:induction false} AttemptsSettled(run: Run, step: StepConfig, script: Script, i: nat, a: nat, max: nat,
                                           lastError: Option<string>)
    requires Settled(run) && (NoWait(step) ==> run.result.status == Passed)
    requires a > max ==> lastError.Some? || run.result.status != Passed
    ensures Told(AttemptFrom(run, step, script, i, a, max, lastError))
    decreases max + 1 - a
  {
    if a <= max {
      var t := Attempt(run, step, script, i, a, lastError);
      AttemptSettled(run, step, script, i, a, lastError);
      if t.again { AttemptsSettled(t.tried.run, step, script, i, a + 1, max, t.tried.lastError); }
    }
  }

  lemma {:induction false} ReleaseKeepsResult(run: Run, reserved: seq<ReceiverConfig>)
    ensures Release(run, reserved).result == run.result && Release(run, reserved).vars == run.vars
    decreases |reserved|
  {
    if reserved != [] {
      var rc := reserved[0];
      var next := run.(store := MemRelease(run.store, rc.kind, rc.recipient));
      ReleaseKeepsResult(Called(next, Freed(Key(rc.kind, rc.recipient))), reserved[1..]);
    }
  }

  lemma {:induction false} ReserveKeepsResult(run: Run, cs: seq<ReceiverConfig>, script: Script, i: nat, r: nat,
                                              reserved: seq<ReceiverConfig>)
    requires r <= |cs|
    ensures var b := ReserveFrom(run, cs, script, i, r, reserved);
            b.run.result == run.result && b.run.vars == run.vars && b.run.runID == run.runID
            && (b.error.Some? ==> b.error.value != "")
    decreases |cs| - r
  {
    if r < |cs| {
      if cs[r].recipient == "" {
        ReserveKeepsResult(run, cs, script, i, r + 1, reserved);
      } else {
        var (store, reply) := MemReserve(run.store, cs[r].kind, cs[r].recipient, run.runID, script.clock(i, r));
        if reply == Reserved {
          var next := Called(run.(store := store), Booked(i, Key(cs[r].kind, cs[r].recipient)));
          ReserveKeepsResult(next, cs, script, i, r + 1, reserved + [cs[r]]);
        }
      }
    }
  }

  /** The result of the steps from i on; releases do not touch it. */
  lemma StepsResult(def: Definition, script: Script, run: Run, i: nat)
    requires i < |def.steps|
    ensures var out := StepsFrom(def, script, run, i).result;
            var (b, t) := (Booking(def, script, run, i), Trying(def, script, run, i));
            if script.create(i).Some? then out.status == Error && out.error == script.create(i).value
            else if b.error.Some? then out.status == Error && out.error == b.error.value
            else if t.passed then out == StepsFrom(def, script, NextStep(t), i + 1).result
            else if t.lastError.Some? then
              out.status == Error && out.error == "step " + FormatNat(i + 1) + " trigger failed: " + t.lastError.value
            else out.status == t.run.result.status && out.error == t.run.result.error
  {
    var s := StepOf(def, script, run, i);
    ReleaseKeepsResult(if s.passed then StepsFrom(def, script, s.end, i + 1) else s.end, s.reserved);
  }

  // ---- Induction over the steps of a run ----

  /** A property of runs and steps: ready holds of the run before step n, ends of the run once its
      last step is over. debt is what the run has to give back; a step adds what it reserved. */
  datatype Law<!T> = Law(ready: (Run, nat, T) -> bool, ends: (Run, T) -> bool, grow: (T, seq<ReceiverConfig>) -> T)

  /** Every step, and every release at the end, keeps the law. */
  ghost predicate Kept<T(!new)>(def: Definition, script: Script, law: Law<T>) {
    && (forall r: Run, n: nat, debt: T {:trigger StepOf(def, script, r, n), law.ready(r, n, debt)}
          | n < |def.steps| && law.ready(r, n, debt) :: StepKept(StepOf(def, script, r, n), n, law, debt))
    && (forall r: Run, debt: T {:trigger law.ready(r, |def.steps|, debt)}
          | law.ready(r, |def.steps|, debt) :: law.ends(KeepVars(r), debt))
    && (forall r: Run, reserved: seq<ReceiverConfig>, debt: T {:trigger law.ends(Release(r, reserved), debt)}
          | law.ends(r, law.grow(debt, reserved)) :: law.ends(Release(r, reserved), debt))
  }

  ghost predicate StepKept<T>(s: Stepped, n: nat, law: Law<T>, debt: T) {
    var more := law.grow(debt, s.reserved);
    if s.passed then law.ready(s.end, n + 1, more) else law.ends(s.end, more)
  }

  lemma {:induction false} StepsKeep<T(!new)>(def: Definition, script: Script, run: Run, i: nat, law: Law<T>, debt: T)
    requires Kept(def, script, law) && i <= |def.steps| && law.ready(run, i, debt)
    ensures law.ends(StepsFrom(def, script, run, i), debt)
    decreases |def.steps| - i
  {
    if i < |def.steps| {
      var s := StepOf(def, script, run, i);
      StepsUnfold(def, script, run, i, s);
      assert StepKept(s, i, law, debt);
      if s.passed { StepsKeep(def, script, s.end, i + 1, law, law.grow(debt, s.reserved)); }
    }
  }

  /** The factory of triggers reports failures with a text. */
  ghost predicate TellsErrors(script: Script) {
    forall i :: script.create(i) != Some("")
  }

  /** No silent failure: a step starts with status passed and no error text, and so the run ends
      with a verdict that is passed exactly when the error text is empty. */
  lemma {:induction false} StepsSettled(def: Definition, script: Script, run: Run, i: nat)
    requires i <= |def.steps| && TellsErrors(script)
    requires run.result.status == Passed && run.result.error == ""
    ensures Settled(StepsFrom(def, script, run, i))
    decreases |def.steps| - i
  {
    if i < |def.steps| {
      var (b, t) := (Booking(def, script, run, i), Trying(def, script, run, i));
      StepsResult(def, script, run, i);
      ReserveKeepsResult(run, def.steps[i].receivers, script, i, 0, []);
      AttemptsSettled(b.run, def.steps[i], script, i, 1, MaxAttempts(def), None);
      if t.passed { StepsSettled(def, script, NextStep(t), i + 1); }
    }
  }

  lemma NoSilentFailure(def: Definition, script: Script, runID: string, vars: Env, store: Mem)
    requires TellsErrors(script)
    ensures var out := Execute(def, script, runID, vars, store);
            && (def.enabled ==> Settled(out))
            && (!def.enabled ==> out.result.status == Skipped && out.result.error == "")
            && out.result.status != Running
  {
    if def.enabled { StepsSettled(def, script, Run(runID, NewResult(runID), vars, store, []), 0); }
  }
}
