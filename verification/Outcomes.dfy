/** What the receivers of an attempt make of the result, told from what the ports answered: statuses,
    report entries and error texts. */
module Outcomes {
  import opened Text
  import opened Domain
  import opened Engine
  import EngineLaws
  import Lifecycle

  // ---- One receiver ----

  /** Nothing was collected, or the first bad check could not be created. */
  ghost predicate Spoiled(c: Collection) {
    c.CollectFailed? || exists n :: FirstBad(c.checks, n) && c.checks[n].Invalid?
  }

  /** The first bad check is violated. */
  ghost predicate Violates(c: Collection) {
    c.Collected? && exists n :: FirstBad(c.checks, n) && c.checks[n].Violated?
  }

  lemma {:induction false} SomeFirstBad(checks: seq<CheckOutcome>, k: int) returns (n: int)
    requires 0 <= k < |checks| && checks[k] != Holds
    ensures FirstBad(checks, n)
    decreases k
  {
    if m :| 0 <= m < k && checks[m] != Holds { n := SomeFirstBad(checks, m); } else { n := k; }
  }

  /** The three statuses of an entry, exactly. */
  lemma EntryStatus(rr: ReceiverResult, kind: string, i: nat, c: Collection)
    requires Reports(rr, kind, i, c)
    ensures rr.status == Error <==> Spoiled(c)
    ensures rr.status == Failed <==> Violates(c)
    ensures rr.status == Passed <==> c.Collected? && forall x <- c.checks :: x == Holds
  {
    if c.Collected? && exists x <- c.checks :: x != Holds {
      var x :| x in c.checks && x != Holds;
      var k :| 0 <= k < |c.checks| && c.checks[k] == x;
      var n := SomeFirstBad(c.checks, k);
      forall m | FirstBad(c.checks, m) ensures m == n { OneFirstBad(c.checks, m, n); }
    }
  }

  lemma OneFirstBad(checks: seq<CheckOutcome>, m: int, n: int)
    requires FirstBad(checks, m) && FirstBad(checks, n)
    ensures m == n
  {
  }

  // ---- The receivers of one attempt ----

  /** error beats failed, and failed beats passed. */
  predicate Worse(entry: Status, error: bool, failed: bool, out: Status) {
    if entry == Error || error then out == Error else if entry == Failed || failed then out == Failed else out == entry
  }

  ghost predicate SomeSpoiled(script: Script, i: nat, a: nat, n: nat) {
    exists r: nat | r < n :: Spoiled(script.collect(i, a, r))
  }

  ghost predicate SomeViolates(script: Script, i: nat, a: nat, n: nat) {
    exists r: nat | r < n :: Violates(script.collect(i, a, r))
  }

  lemma VerdictOf(cs: seq<ReceiverConfig>, script: Script, i: nat, a: nat, order: seq<nat>, n: nat)
    requires n < |order|
    ensures var v := EngineLaws.Verdicts(cs, script, i, a, order)[n];
            && Reports(v, KindAt(cs, order[n]), i, script.collect(i, a, order[n]))
            && (v.status == Error <==> Spoiled(script.collect(i, a, order[n])))
            && (v.status == Failed <==> Violates(script.collect(i, a, order[n])))
  {
    VerdictReports(script, i, a, KindAt(cs, order[n]), order[n]);
    EntryStatus(EngineLaws.Verdicts(cs, script, i, a, order)[n], KindAt(cs, order[n]), i,
                script.collect(i, a, order[n]));
  }

  lemma VerdictsTell(cs: seq<ReceiverConfig>, script: Script, i: nat, a: nat, order: seq<nat>)
    requires Lifecycle.IsSchedule(order, |cs|)
    ensures (exists v <- EngineLaws.Verdicts(cs, script, i, a, order) :: v.status == Error) <==>
            SomeSpoiled(script, i, a, |cs|)
    ensures (exists v <- EngineLaws.Verdicts(cs, script, i, a, order) :: v.status == Failed) <==>
            SomeViolates(script, i, a, |cs|)
  {
    var vs := EngineLaws.Verdicts(cs, script, i, a, order);
    forall n | 0 <= n < |order|
      ensures vs[n].status == Error <==> Spoiled(script.collect(i, a, order[n]))
      ensures vs[n].status == Failed <==> Violates(script.collect(i, a, order[n]))
      ensures order[n] < |cs|
    {
      VerdictOf(cs, script, i, a, order, n);
      assert order[n] in order;
    }
    if r: nat :| r < |cs| && Spoiled(script.collect(i, a, r)) {
      var n := PlaceOf(order, |cs|, r);
      assert vs[n] in vs;
    }
    if r: nat :| r < |cs| && Violates(script.collect(i, a, r)) {
      var n := PlaceOf(order, |cs|, r);
      assert vs[n] in vs;
    }
    forall v | v in vs
      ensures v.status == Error ==> SomeSpoiled(script, i, a, |cs|)
      ensures v.status == Failed ==> SomeViolates(script, i, a, |cs|)
    {
      var n :| 0 <= n < |vs| && vs[n] == v;
      assert order[n] < |cs|;
    }
  }

  lemma PlaceOf(order: seq<nat>, n: nat, r: nat) returns (k: nat)
    requires Lifecycle.IsSchedule(order, n) && r < n
    ensures k < |order| && order[k] == r
  {
    assert r in order;
    k :| 0 <= k < |order| && order[k] == r;
  }

  /** The merged status, in every completion order. */
  lemma MergeOutcome(run: Run, cs: seq<ReceiverConfig>, script: Script, i: nat, a: nat, order: seq<nat>)
    requires EngineLaws.Verdictable(run.result.status) && Lifecycle.IsSchedule(order, |cs|)
    ensures var out := MergeFrom(run, cs, script, i, a, order).result;
            && Worse(run.result.status, SomeSpoiled(script, i, a, |cs|), SomeViolates(script, i, a, |cs|), out.status)
            && out.error == run.result.error
            && out.receivers == run.result.receivers + EngineLaws.Verdicts(cs, script, i, a, order)
  {
    var vs := EngineLaws.Verdicts(cs, script, i, a, order);
    EngineLaws.MergeFromIsMergeAll(run, cs, script, i, a, order);
    EngineLaws.VerdictsVerdictable(cs, script, i, a, order);
    EngineLaws.MergeIsMaximum(run.result, vs);
    VerdictsTell(cs, script, i, a, order);
  }

  // ---- The summary ----

  /** The receivers that did not pass, each with its kind, its step and its error. */
  function Told(rs: seq<ReceiverResult>): seq<string>
    decreases |rs|
  {
    if rs == [] then []
    else
      (if rs[0].status == Failed || rs[0].status == Error then
         [rs[0].kind + " (trigger " + FormatNat(rs[0].triggerIndex + 1) + "): " + rs[0].error]
       else [])
      + Told(rs[1..])
  }

  /** strings.Join. */
  function Join(parts: seq<string>, separator: string): string {
    if parts == [] then "" else if |parts| == 1 then parts[0] else parts[0] + separator + Join(parts[1..], separator)
  }

  /** The error text of a run that receivers failed. */
  lemma {:induction false} SummaryJoins(rs: seq<ReceiverResult>)
    ensures Summary(rs) == Join(Told(rs), "; ") && (Told(rs) == [] <==> Summary(rs) == "")
    decreases |rs|
  {
    if rs != [] {
      SummaryJoins(rs[1..]);
      var rest := Told(rs[1..]);
      if rs[0].status == Failed || rs[0].status == Error {
        var part := rs[0].kind + " (trigger " + FormatNat(rs[0].triggerIndex + 1) + "): " + rs[0].error;
        assert ([part] + rest)[1..] == rest;
        assert part + "" == part && part + ("; " + Summary(rs[1..])) == part + "; " + Summary(rs[1..]);
      } else {
        assert [] + rest == rest;
      }
    }
  }

  /** What the receivers of an attempt that all start make of the result: one entry each, in the order
      in which they finished; a status that does not depend on that order; and, once it is not passed,
      an error text, which stays. */
  ghost predicate Merged(before: TestResult, out: TestResult, step: StepConfig, script: Script, i: nat, a: nat) {
    var (n, order) := (|step.receivers|, script.order(i, a));
    && Worse(before.status, SomeSpoiled(script, i, a, n), SomeViolates(script, i, a, n), out.status)
    && |out.receivers| == |before.receivers| + |order| && before.receivers <= out.receivers
    && (forall m | 0 <= m < |order| ::
          && order[m] < n
          && Reports(out.receivers[|before.receivers| + m], step.receivers[order[m]].kind, i,
                     script.collect(i, a, order[m])))
    && out.error == (if before.error != "" || out.status == Passed then before.error
                     else Join(Told(out.receivers), "; "))
  }

  lemma CollectOutcome(run: Run, step: StepConfig, script: Script, i: nat, a: nat)
    requires EngineLaws.Verdictable(run.result.status)
    requires Lifecycle.IsSchedule(script.order(i, a), |step.receivers|)
    ensures Merged(run.result, CollectAll(run, step.receivers, script, i, a).result, step, script, i, a)
  {
    var (cs, order) := (step.receivers, script.order(i, a));
    MergeOutcome(run, cs, script, i, a, order);
    SummaryJoins(MergeFrom(run, cs, script, i, a, order).result.receivers);
    forall n | 0 <= n < |order|
      ensures order[n] < |cs|
      ensures Reports(EngineLaws.Verdicts(cs, script, i, a, order)[n], cs[order[n]].kind, i,
                      script.collect(i, a, order[n]))
    {
      assert order[n] in order;
      VerdictOf(cs, script, i, a, order, n);
    }
  }

  // ---- One attempt ----

  /** The step starts receivers once its trigger fired. */
  predicate Waits(step: StepConfig) {
    step.waitForReceivers && step.receivers != []
  }

  predicate AllStart(script: Script, i: nat, a: nat, n: nat) {
    forall r: nat | r < n :: script.start(i, a, r) == None
  }

  /** A step that does not wait passes once its trigger fired, and calls no receiver. */
  lemma NothingAwaited(run: Run, step: StepConfig, script: Script, i: nat, a: nat)
    requires !Waits(step)
    ensures Receive(run, step, script, i, a) == (run, true, false)
  {
  }

  /** The first receiver that does not start ends the step. */
  lemma StartRefused(run: Run, step: StepConfig, script: Script, i: nat, a: nat, r: nat)
    requires Waits(step) && r < |step.receivers| && script.start(i, a, r).Some? && AllStart(script, i, a, r)
    ensures var (done, passed, again) := Receive(run, step, script, i, a);
            && !passed && !again && done.result.status == Error && done.result.receivers == run.result.receivers
            && done.result.error ==
               "step " + FormatNat(i + 1) + " receiver start failed: " + script.start(i, a, r).value
  {
    StopsAt(run, |step.receivers|, script, i, a, 0, r);
    EngineLaws.StartKeepsResult(run, |step.receivers|, script, i, a, 0);
  }

  lemma {:induction false} StopsAt(run: Run, n: nat, script: Script, i: nat, a: nat, k: nat, r: nat)
    requires k <= r < n && script.start(i, a, r).Some? && AllStart(script, i, a, r)
    ensures StartFrom(run, n, script, i, a, k).1 == script.start(i, a, r)
    decreases r - k
  {
    if k < r { StopsAt(Called(run, Started(i, a, k)), n, script, i, a, k + 1, r); }
  }

  lemma {:induction false} AllStarted(run: Run, n: nat, script: Script, i: nat, a: nat, k: nat)
    requires k <= n && AllStart(script, i, a, n)
    ensures StartFrom(run, n, script, i, a, k).1 == None
    decreases n - k
  {
    if k < n { AllStarted(Called(run, Started(i, a, k)), n, script, i, a, k + 1); }
  }

  /** All receivers start: the attempt passes exactly if the status is passed, and else another follows. */
  lemma Received(run: Run, step: StepConfig, script: Script, i: nat, a: nat)
    requires Waits(step) && AllStart(script, i, a, |step.receivers|)
    requires EngineLaws.Verdictable(run.result.status)
    requires Lifecycle.IsSchedule(script.order(i, a), |step.receivers|)
    ensures var (done, passed, again) := Receive(run, step, script, i, a);
            && again && (passed <==> done.result.status == Passed)
            && Merged(run.result, done.result, step, script, i, a)
  {
    var n := |step.receivers|;
    AllStarted(run, n, script, i, a, 0);
    EngineLaws.StartKeepsResult(run, n, script, i, a, 0);
    var started := StartFrom(run, n, script, i, a, 0).0;
    CollectOutcome(started, step, script, i, a);
    EngineLaws.StopKeepsResult(CollectAll(started, step.receivers, script, i, a), n, i, a, 0);
  }
}
