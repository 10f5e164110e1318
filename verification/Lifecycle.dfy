/** The order of the port calls of every run, judged by a monitor that knows nothing of the
    engine: what is started is collected once, then stopped once, before the next attempt;
    reservations are given back only at the end. */
module Lifecycle {
  import opened Text
  import opened Domain
  import opened Stores
  import opened Engine
  import EngineLaws

  /** One started receiver. */
  datatype Rec = Rec(step: nat, attempt: nat, receiver: nat)

  /** step and attempt: the latest Fire. collecting: something was collected since. running:
      started, not stopped; collected: of those, already collected; started: ever started.
      closed: no call but a release may follow. returning: only releases follow. */
  datatype Monitor =
    | Watching(step: nat, attempt: nat, collecting: bool,
               running: set<Rec>, collected: set<Rec>, started: set<Rec>, closed: bool, returning: bool)
    | Rejected

  const INITIAL := Watching(0, 0, false, {}, {}, {}, false, false)

  predicate Later(i: nat, a: nat, step: nat, attempt: nat) {
    step < i || (step == i && attempt < a)
  }

  /** The call belongs to the attempt that fired last, and nothing of it was collected yet. */
  predicate Starting(m: Monitor, i: nat, a: nat)
    requires m.Watching?
  {
    m.step == i && m.attempt == a && !m.collecting
  }

  function Observe(m: Monitor, c: Call): Monitor {
    if m == Rejected then Rejected
    else if c.Freed? then (if m.running == {} || m.closed then m.(returning := true) else Rejected)
    else if m.closed || m.returning then Rejected
    else match c
      case Booked(_, _) => if m.running == {} then m else Rejected
      case BookRefused(_, _) => if m.running == {} then m.(closed := true) else Rejected
      case Fire(i, a) =>
        if m.running == {} && Later(i, a, m.step, m.attempt) then m.(step := i, attempt := a, collecting := false)
        else Rejected
      case Started(i, a, r) =>
        if !Starting(m, i, a) || Rec(i, a, r) in m.started then Rejected
        else m.(running := m.running + {Rec(i, a, r)}, started := m.started + {Rec(i, a, r)})
      case StartFailed(i, a, r) => if Starting(m, i, a) then m.(closed := true) else Rejected
      case Collect(i, a, r) =>
        if Rec(i, a, r) in m.running - m.collected then
          m.(collected := m.collected + {Rec(i, a, r)}, collecting := true)
        else Rejected
      case Stopped(i, a, r) =>
        if Rec(i, a, r) in m.collected then
          m.(running := m.running - {Rec(i, a, r)}, collected := m.collected - {Rec(i, a, r)})
        else Rejected
  }

  function Watch(m: Monitor, calls: seq<Call>): Monitor {
    if calls == [] then m else Observe(Watch(m, calls[..|calls| - 1]), calls[|calls| - 1])
  }

  /** Everything that was started was stopped, unless a receiver did not start. */
  predicate Accepts(m: Monitor) {
    m != Rejected && (m.running == {} || m.closed)
  }

  function Seen(run: Run): Monitor {
    Watch(INITIAL, run.calls)
  }

  lemma SeenCalled(run: Run, c: Call)
    ensures Seen(Called(run, c)) == Observe(Seen(run), c)
  {
    assert (run.calls + [c])[..|run.calls|] == run.calls;
  }

  function Recs(i: nat, a: nat, lo: nat, hi: nat): set<Rec> {
    set r: nat | lo <= r < hi :: Rec(i, a, r)
  }

  /** Only attempts before attempt a of step i have started receivers. */
  ghost predicate Before(started: set<Rec>, i: nat, a: nat) {
    forall x <- started :: Later(i, a, x.step, x.attempt)
  }

  predicate Open(m: Monitor) {
    m.Watching? && m.running == {} && m.collected == {} && !m.closed && !m.returning
  }

  /** Attempt a of step i may fire. */
  ghost predicate Ready(m: Monitor, i: nat, a: nat) {
    Open(m) && Later(i, a, m.step, m.attempt) && Before(m.started, i, a)
  }

  /** Attempt a of step i has fired, and has started nothing yet. */
  ghost predicate JustFired(m: Monitor, i: nat, a: nat) {
    Open(m) && Starting(m, i, a) && Before(m.started, i, a)
  }

  /** A receiver did not start, or a recipient was refused. */
  predicate Ended(m: Monitor) {
    m.Watching? && m.closed && !m.returning
  }

  // ---- Completion orders ----

  /** The completion orders of the goroutines are orders of the receivers. */
  ghost predicate Schedules(def: Definition, script: Script) {
    forall i, a | 0 <= i < |def.steps| :: IsSchedule(script.order(i, a), |def.steps[i].receivers|)
  }

  /** Each of the numbers below n, once. */
  ghost predicate IsSchedule(order: seq<nat>, n: nat) {
    && (forall r: nat :: r in order <==> r < n)
    && (forall x, y | 0 <= x < y < |order| :: order[x] != order[y])
  }

  /** The order in which the receivers were started, from the one before n down or up. */
  function InOrder(n: nat, backwards: bool): (order: seq<nat>)
    ensures |order| == n
  {
    seq(n, x requires 0 <= x < n => if backwards then n - 1 - x else x)
  }

  lemma InOrderSchedules(n: nat, backwards: bool)
    ensures IsSchedule(InOrder(n, backwards), n)
  {
    var order := InOrder(n, backwards);
    forall r: nat ensures r in order <==> r < n {
      if r < n { assert order[if backwards then n - 1 - r else r] == r; }
    }
  }

  /** Every test has completion orders, whatever else its ports do: first come first done, or the
      reverse. */
  lemma SchedulesExist(def: Definition, script: Script, backwards: bool)
    ensures Schedules(def, script.(order := (i: nat, a: nat) =>
              InOrder(if i < |def.steps| then |def.steps[i].receivers| else 0, backwards)))
  {
    forall i: nat | i < |def.steps|
      ensures IsSchedule(InOrder(|def.steps[i].receivers|, backwards), |def.steps[i].receivers|)
    {
      InOrderSchedules(|def.steps[i].receivers|, backwards);
    }
  }

  // ---- One attempt ----

  lemma {:induction false} StartSeen(run: Run, n: nat, script: Script, i: nat, a: nat, r: nat, past: set<Rec>)
    requires r <= n && Before(past, i, a)
    requires Seen(run) == Watching(i, a, false, Recs(i, a, 0, r), {}, past + Recs(i, a, 0, r), false, false)
    ensures var (out, error) := StartFrom(run, n, script, i, a, r);
            && (error == None ==>
                  Seen(out) == Watching(i, a, false, Recs(i, a, 0, n), {}, past + Recs(i, a, 0, n), false, false))
            && (error.Some? ==> Ended(Seen(out)))
    decreases n - r
  {
    if r < n {
      SeenCalled(run, StartFailed(i, a, r));
      SeenCalled(run, Started(i, a, r));
      if script.start(i, a, r) == None {
        assert Recs(i, a, 0, r + 1) == Recs(i, a, 0, r) + {Rec(i, a, r)};
        assert past + Recs(i, a, 0, r + 1) == past + Recs(i, a, 0, r) + {Rec(i, a, r)};
        StartSeen(Called(run, Started(i, a, r)), n, script, i, a, r + 1, past);
      }
    }
  }

  /** What a list of finished goroutines has collected. */
  function Done(i: nat, a: nat, order: seq<nat>): set<Rec> {
    set r | r in order :: Rec(i, a, r)
  }

  /** The monitor while goroutines finish: those of done did, for all n receivers. */
  function Merging(i: nat, a: nat, n: nat, done: seq<nat>, started: set<Rec>): Monitor {
    Watching(i, a, done != [], Recs(i, a, 0, n), Done(i, a, done), started, false, false)
  }

  lemma {:induction false} MergeSeen(run: Run, cs: seq<ReceiverConfig>, script: Script, i: nat, a: nat,
                                     done: seq<nat>, order: seq<nat>, started: set<Rec>)
    requires IsSchedule(done + order, |cs|) && Seen(run) == Merging(i, a, |cs|, done, started)
    ensures Seen(MergeFrom(run, cs, script, i, a, order)) == Merging(i, a, |cs|, done + order, started)
    decreases |order|
  {
    if order == [] {
      assert done + order == done;
    } else {
      var r := order[0];
      var next := Finish(run, script, i, a, KindAt(cs, r), r).(calls := run.calls);
      NextToFinish(done, order, |cs|);
      SeenCalled(next, Collect(i, a, r));
      assert Done(i, a, done + [r]) == Done(i, a, done) + {Rec(i, a, r)};
      MergeSeen(Called(next, Collect(i, a, r)), cs, script, i, a, done + [r], order[1..], started);
    }
  }

  lemma NextToFinish(done: seq<nat>, order: seq<nat>, n: nat)
    requires IsSchedule(done + order, n) && order != []
    ensures order[0] < n && order[0] !in done && (done + [order[0]]) + order[1..] == done + order
  {
    assert (done + order)[|done|] == order[0] && order[0] in done + order;
    assert forall x | 0 <= x < |done| :: (done + order)[x] == done[x];
  }

  lemma {:induction false} StopSeen(run: Run, n: nat, i: nat, a: nat, r: nat, m: Monitor)
    requires r <= n && Open(m) && Seen(run) == m.(running := Recs(i, a, r, n), collected := Recs(i, a, r, n))
    ensures Seen(StopFrom(run, n, i, a, r)) == m
    decreases n - r
  {
    if r < n {
      SeenCalled(run, Stopped(i, a, r));
      assert Recs(i, a, r, n) - {Rec(i, a, r)} == Recs(i, a, r + 1, n);
      StopSeen(Called(run, Stopped(i, a, r)), n, i, a, r + 1, m);
    } else {
      assert Recs(i, a, n, n) == {};
    }
  }

  /** All receivers started: they are collected and stopped. */
  lemma CollectSeen(run: Run, cs: seq<ReceiverConfig>, script: Script, i: nat, a: nat, past: set<Rec>)
    requires Before(past, i, a) && IsSchedule(script.order(i, a), |cs|)
    requires Seen(run) == Watching(i, a, false, Recs(i, a, 0, |cs|), {}, past + Recs(i, a, 0, |cs|), false, false)
    ensures Ready(Seen(StopFrom(CollectAll(run, cs, script, i, a), |cs|, i, a, 0)), i, a + 1)
  {
    var (n, order, started) := (|cs|, script.order(i, a), past + Recs(i, a, 0, |cs|));
    assert [] + order == order && Done(i, a, []) == {};
    MergeSeen(run, cs, script, i, a, [], order, started);
    assert Done(i, a, order) == Recs(i, a, 0, n);
    StopSeen(CollectAll(run, cs, script, i, a), n, i, a, 0, Watching(i, a, order != [], {}, {}, started, false, false));
  }

  /** A fired attempt leaves nothing running, or is closed by a receiver that did not start. */
  lemma ReceiveSeen(run: Run, step: StepConfig, script: Script, i: nat, a: nat)
    requires JustFired(Seen(run), i, a) && IsSchedule(script.order(i, a), |step.receivers|)
    ensures var (done, passed, again) := Receive(run, step, script, i, a);
            if passed || again then Ready(Seen(done), i, a + 1) else Ended(Seen(done))
  {
    if !NoWait(step) {
      var (n, past) := (|step.receivers|, Seen(run).started);
      assert Recs(i, a, 0, 0) == {} && past + {} == past;
      StartSeen(run, n, script, i, a, 0, past);
      var (started, error) := StartFrom(run, n, script, i, a, 0);
      if error == None { CollectSeen(started, step.receivers, script, i, a, past); }
    }
  }

  lemma AttemptSeen(run: Run, step: StepConfig, script: Script, i: nat, a: nat, lastError: Option<string>)
    requires Ready(Seen(run), i, a) && IsSchedule(script.order(i, a), |step.receivers|)
    ensures var t := Attempt(run, step, script, i, a, lastError);
            if t.tried.passed || t.again then Ready(Seen(t.tried.run), i, a + 1) else Ended(Seen(t.tried.run))
  {
    var next := NextAttempt(run, i, a);
    SeenCalled(run.(result := run.result.(attempts := run.result.attempts + 1)), Fire(i, a));
    match script.execute(i, a, run.vars)
    case TriggerFailed(_, _) =>
    case Fired(vars, extracted) => ReceiveSeen(next.(vars := vars + extracted), step, script, i, a);
  }

  lemma {:induction false} AttemptsSeen(run: Run, step: StepConfig, script: Script, i: nat, a: nat, max: nat,
                                        lastError: Option<string>)
    requires Ready(Seen(run), i, a)
    requires forall b :: IsSchedule(script.order(i, b), |step.receivers|)
    ensures var t := AttemptFrom(run, step, script, i, a, max, lastError);
            if t.passed then Ready(Seen(t.run), i + 1, 1) else Open(Seen(t.run)) || Ended(Seen(t.run))
    decreases max + 1 - a
  {
    if a <= max {
      var t := Attempt(run, step, script, i, a, lastError);
      AttemptSeen(run, step, script, i, a, lastError);
      if t.again { AttemptsSeen(t.tried.run, step, script, i, a + 1, max, t.tried.lastError); }
    }
  }

  // ---- Whole runs ----

  lemma {:induction false} ReserveSeen(run: Run, cs: seq<ReceiverConfig>, script: Script, i: nat, r: nat,
                                       reserved: seq<ReceiverConfig>)
    requires r <= |cs| && Open(Seen(run))
    ensures var b := ReserveFrom(run, cs, script, i, r, reserved);
            Seen(b.run) == if b.error == None then Seen(run) else Seen(run).(closed := true)
    decreases |cs| - r
  {
    if r < |cs| {
      if cs[r].recipient == "" {
        ReserveSeen(run, cs, script, i, r + 1, reserved);
      } else {
        var key := Key(cs[r].kind, cs[r].recipient);
        var (store, reply) := MemReserve(run.store, cs[r].kind, cs[r].recipient, run.runID, script.clock(i, r));
        SeenCalled(run, BookRefused(i, key));
        SeenCalled(run.(store := store), Booked(i, key));
        if reply == Reserved {
          ReserveSeen(Called(run.(store := store), Booked(i, key)), cs, script, i, r + 1, reserved + [cs[r]]);
        }
      }
    }
  }

  lemma {:induction false} ReleaseSeen(run: Run, reserved: seq<ReceiverConfig>)
    requires Accepts(Seen(run))
    ensures Accepts(Seen(Release(run, reserved)))
    decreases |reserved|
  {
    if reserved != [] {
      var rc := reserved[0];
      var next := run.(store := MemRelease(run.store, rc.kind, rc.recipient));
      SeenCalled(next, Freed(Key(rc.kind, rc.recipient)));
      ReleaseSeen(Called(next, Freed(Key(rc.kind, rc.recipient))), reserved[1..]);
    }
  }

  lemma StepSeen(def: Definition, script: Script, run: Run, i: nat)
    requires i < |def.steps| && Schedules(def, script) && Ready(Seen(run), i, 1)
    ensures var s := StepOf(def, script, run, i);
            if s.passed then Ready(Seen(s.end), i + 1, 1) else Accepts(Seen(s.end))
  {
    ReserveSeen(run, def.steps[i].receivers, script, i, 0, []);
    var b := Booking(def, script, run, i);
    if b.error == None { AttemptsSeen(b.run, def.steps[i], script, i, 1, MaxAttempts(def), None); }
  }

  /** Receiver lifecycle: the monitor accepts the calls of every run. */
  lemma ReceiverLifecycle(def: Definition, script: Script, runID: string, vars: Env, store: Mem)
    requires Schedules(def, script)
    ensures Accepts(Watch(INITIAL, Execute(def, script, runID, vars, store).calls))
  {
    var law := EngineLaws.Law(
      (r: Run, n: nat, debt: ()) => Ready(Seen(r), n, 1),
      (r: Run, debt: ()) => Accepts(Seen(r)),
      (debt: (), reserved) => ());
    forall r: Run, n: nat, debt: () | n < |def.steps| && law.ready(r, n, debt)
      ensures EngineLaws.StepKept(StepOf(def, script, r, n), n, law, debt)
    {
      StepSeen(def, script, r, n);
    }
    forall r: Run, reserved: seq<ReceiverConfig>, debt: () | law.ends(r, debt)
      ensures law.ends(Release(r, reserved), debt)
    {
      ReleaseSeen(r, reserved);
    }
    if def.enabled { EngineLaws.StepsKeep(def, script, Run(runID, NewResult(runID), vars, store, []), 0, law, ()); }
  }

  // ---- What acceptance means ----

  /** What the monitor knows of one receiver, counted in the record of calls. */
  lemma {:induction false} MonitorCounts(calls: seq<Call>, x: Rec)
    requires Watch(INITIAL, calls) != Rejected
    ensures var m := Watch(INITIAL, calls);
            && m.running <= m.started && m.collected <= m.running
            && Times(calls, Started(x.step, x.attempt, x.receiver)) == (if x in m.started then 1 else 0)
            && Times(calls, Stopped(x.step, x.attempt, x.receiver)) == (if x in m.started - m.running then 1 else 0)
            && Times(calls, Collect(x.step, x.attempt, x.receiver)) ==
               (if x in m.started - (m.running - m.collected) then 1 else 0)
  {
    if calls != [] { MonitorCounts(calls[..|calls| - 1], x); }
  }

  function Times(calls: seq<Call>, c: Call): nat {
    if calls == [] then 0 else Times(calls[..|calls| - 1], c) + if calls[|calls| - 1] == c then 1 else 0
  }

  lemma {:induction false} TimesPositive(calls: seq<Call>, c: Call)
    requires c in calls
    ensures Times(calls, c) > 0
  {
    var n := |calls| - 1;
    if calls[n] != c {
      assert calls == calls[..n] + [calls[n]];
      TimesPositive(calls[..n], c);
    }
  }

  /** A receiver of the attempt did not start. */
  ghost predicate StartError(calls: seq<Call>, i: nat, a: nat) {
    exists r :: StartFailed(i, a, r) in calls
  }

  /** Only receivers of the latest attempt run; until its first collection all it started run; a
      start error was of this attempt, before anything was collected. */
  ghost predicate Attempting(m: Monitor, calls: seq<Call>)
    requires m.Watching?
  {
    && (forall x <- m.running :: x.step == m.step && x.attempt == m.attempt)
    && (forall x <- m.started :: !Later(x.step, x.attempt, m.step, m.attempt))
    && (!m.collecting ==> m.collected == {})
    && (!m.collecting ==> forall x <- m.started | x.step == m.step && x.attempt == m.attempt :: x in m.running)
    && (forall c <- calls | c.StartFailed? :: m.closed && Starting(m, c.step, c.attempt))
    && (m.closed && m.running != {} ==> StartError(calls, m.step, m.attempt))
    && (m.closed ==> m.collected == {})
  }

  lemma {:induction false} MonitorAttempts(calls: seq<Call>)
    requires Watch(INITIAL, calls) != Rejected
    ensures Attempting(Watch(INITIAL, calls), calls)
  {
    if calls != [] {
      var n := |calls| - 1;
      MonitorCounts(calls[..n], Rec(0, 0, 0));
      MonitorAttempts(calls[..n]);
      AttemptingNext(Watch(INITIAL, calls[..n]), calls[..n], calls[n]);
      assert calls == calls[..n] + [calls[n]];
    }
  }

  lemma AttemptingNext(m: Monitor, calls: seq<Call>, c: Call)
    requires m.Watching? && Attempting(m, calls) && m.collected <= m.running && Observe(m, c) != Rejected
    ensures Attempting(Observe(m, c), calls + [c])
  {
    var m' := Observe(m, c);
    assert forall d :: d in calls + [c] <==> d in calls || d == c;
    if m'.closed && m'.running != {} {
      if c.StartFailed? {
        assert c in calls + [c];
      } else {
        var r :| StartFailed(m.step, m.attempt, r) in calls;
        assert StartFailed(m.step, m.attempt, r) in calls + [c];
      }
    }
  }

  /** In every run each receiver that started is collected exactly once and stopped exactly once,
      except when a receiver of the same attempt did not start: then neither, ever. */
  lemma CollectedOnceStoppedOnce(def: Definition, script: Script, runID: string, vars: Env, store: Mem, x: Rec)
    requires Schedules(def, script)
    requires Started(x.step, x.attempt, x.receiver) in Execute(def, script, runID, vars, store).calls
    ensures var calls := Execute(def, script, runID, vars, store).calls;
            var n := if StartError(calls, x.step, x.attempt) then 0 else 1;
            && Times(calls, Started(x.step, x.attempt, x.receiver)) == 1
            && Times(calls, Collect(x.step, x.attempt, x.receiver)) == n
            && Times(calls, Stopped(x.step, x.attempt, x.receiver)) == n
  {
    var calls := Execute(def, script, runID, vars, store).calls;
    ReceiverLifecycle(def, script, runID, vars, store);
    MonitorCounts(calls, x);
    MonitorAttempts(calls);
    TimesPositive(calls, Started(x.step, x.attempt, x.receiver));
  }

  /** The exception is reached: two receivers, of which the second does not start. */
  lemma StartErrorLeaks(def: Definition, script: Script, runID: string, vars: Env, store: Mem)
    requires def.enabled && |def.steps| == 1 && def.steps[0].waitForReceivers && |def.steps[0].receivers| == 2
    requires forall rc <- def.steps[0].receivers :: rc.recipient == ""
    requires script.create(0) == None && script.execute(0, 1, vars).Fired?
    requires script.start(0, 1, 0) == None && script.start(0, 1, 1).Some?
    ensures Execute(def, script, runID, vars, store).calls == [Fire(0, 1), Started(0, 1, 0), StartFailed(0, 1, 1)]
  {
    var run := Run(runID, NewResult(runID), vars, store, []);
    var step := def.steps[0];
    NothingToReserve(run, step.receivers, script, 0, 0, []);
    var t := script.execute(0, 1, vars);
    var go := NextAttempt(run, 0, 1).(vars := t.vars + t.extracted);
    var one := Called(go, Started(0, 1, 0));
    assert StartFrom(one, 2, script, 0, 1, 1) == (Called(one, StartFailed(0, 1, 1)), script.start(0, 1, 1));
    assert StartFrom(go, 2, script, 0, 1, 0) == StartFrom(one, 2, script, 0, 1, 1);
    assert AttemptFrom(run, step, script, 0, 1, MaxAttempts(def), None) == Attempt(run, step, script, 0, 1, None).tried;
  }

  lemma {:induction false} NothingToReserve(run: Run, cs: seq<ReceiverConfig>, script: Script, i: nat, r: nat,
                                            reserved: seq<ReceiverConfig>)
    requires r <= |cs| && forall rc <- cs :: rc.recipient == ""
    ensures ReserveFrom(run, cs, script, i, r, reserved) == Bookings(run, reserved, None)
    decreases |cs| - r
  {
    if r < |cs| {
      assert cs[r] in cs;
      NothingToReserve(run, cs, script, i, r + 1, reserved);
    }
  }

  // ---- One result per collection ----

  /** The steps of the collections, in order. */
  function CollectSteps(calls: seq<Call>): seq<nat> {
    if calls == [] then []
    else
      var c := calls[|calls| - 1];
      CollectSteps(calls[..|calls| - 1]) + if c.Collect? then [c.step] else []
  }

  function Indices(rs: seq<ReceiverResult>): seq<nat> {
    seq(|rs|, n requires 0 <= n < |rs| => rs[n].triggerIndex)
  }

  /** One entry per collection, with nondecreasing trigger index, so far at most i. */
  ghost predicate Recorded(run: Run, i: nat) {
    var steps := Indices(run.result.receivers);
    && steps == CollectSteps(run.calls)
    && (forall x, y | 0 <= x < y < |steps| :: steps[x] <= steps[y])
    && (forall x | 0 <= x < |steps| :: steps[x] <= i)
  }

  lemma CollectStepsCalled(run: Run, c: Call)
    ensures CollectSteps(Called(run, c).calls) == CollectSteps(run.calls) + if c.Collect? then [c.step] else []
  {
    assert (run.calls + [c])[..|run.calls|] == run.calls;
  }

  lemma RecordedOther(run: Run, c: Call, i: nat)
    requires Recorded(run, i) && !c.Collect?
    ensures Recorded(Called(run, c), i)
  {
    CollectStepsCalled(run, c);
  }

  lemma {:induction false} MergeRecorded(run: Run, cs: seq<ReceiverConfig>, script: Script, i: nat, a: nat,
                                         order: seq<nat>)
    requires Recorded(run, i)
    ensures Recorded(MergeFrom(run, cs, script, i, a, order), i)
    decreases |order|
  {
    if order != [] {
      var r := order[0];
      var kind := KindAt(cs, r);
      var next := Finish(run, script, i, a, kind, r);
      EngineLaws.VerdictShape(script, i, a, kind, r);
      CollectStepsCalled(next.(calls := run.calls), Collect(i, a, r));
      assert Indices(next.result.receivers) == Indices(run.result.receivers) + [i];
      MergeRecorded(next, cs, script, i, a, order[1..]);
    }
  }

  lemma {:induction false} StartRecorded(run: Run, n: nat, script: Script, i: nat, a: nat, r: nat)
    requires r <= n && Recorded(run, i)
    ensures Recorded(StartFrom(run, n, script, i, a, r).0, i)
    decreases n - r
  {
    if r < n {
      RecordedOther(run, StartFailed(i, a, r), i);
      RecordedOther(run, Started(i, a, r), i);
      if script.start(i, a, r) == None { StartRecorded(Called(run, Started(i, a, r)), n, script, i, a, r + 1); }
    }
  }

  lemma {:induction false} StopRecorded(run: Run, n: nat, i: nat, a: nat, r: nat)
    requires r <= n && Recorded(run, i)
    ensures Recorded(StopFrom(run, n, i, a, r), i)
    decreases n - r
  {
    if r < n {
      RecordedOther(run, Stopped(i, a, r), i);
      StopRecorded(Called(run, Stopped(i, a, r)), n, i, a, r + 1);
    }
  }

  lemma ReceiveRecorded(run: Run, step: StepConfig, script: Script, i: nat, a: nat)
    requires Recorded(run, i)
    ensures Recorded(Receive(run, step, script, i, a).0, i)
  {
    if !NoWait(step) {
      StartRecorded(run, |step.receivers|, script, i, a, 0);
      var (started, error) := StartFrom(run, |step.receivers|, script, i, a, 0);
      if error == None {
        MergeRecorded(started, step.receivers, script, i, a, script.order(i, a));
        StopRecorded(CollectAll(started, step.receivers, script, i, a), |step.receivers|, i, a, 0);
      }
    }
  }

  lemma AttemptRecorded(run: Run, step: StepConfig, script: Script, i: nat, a: nat, lastError: Option<string>)
    requires Recorded(run, i)
    ensures Recorded(Attempt(run, step, script, i, a, lastError).tried.run, i)
  {
    var next := NextAttempt(run, i, a);
    RecordedOther(run.(result := run.result.(attempts := run.result.attempts + 1)), Fire(i, a), i);
    match script.execute(i, a, run.vars)
    case TriggerFailed(_, _) =>
    case Fired(vars, extracted) => ReceiveRecorded(next.(vars := vars + extracted), step, script, i, a);
  }

  lemma {:induction false} AttemptsRecorded(run: Run, step: StepConfig, script: Script, i: nat, a: nat, max: nat,
                                            lastError: Option<string>)
    requires Recorded(run, i)
    ensures Recorded(AttemptFrom(run, step, script, i, a, max, lastError).run, i)
    decreases max + 1 - a
  {
    if a <= max {
      var t := Attempt(run, step, script, i, a, lastError);
      AttemptRecorded(run, step, script, i, a, lastError);
      if t.again { AttemptsRecorded(t.tried.run, step, script, i, a + 1, max, t.tried.lastError); }
    }
  }

  lemma {:induction false} ReserveRecorded(run: Run, cs: seq<ReceiverConfig>, script: Script, i: nat, r: nat,
                                           reserved: seq<ReceiverConfig>, n: nat)
    requires r <= |cs| && Recorded(run, n)
    ensures Recorded(ReserveFrom(run, cs, script, i, r, reserved).run, n)
    decreases |cs| - r
  {
    if r < |cs| {
      if cs[r].recipient == "" {
        ReserveRecorded(run, cs, script, i, r + 1, reserved, n);
      } else {
        var key := Key(cs[r].kind, cs[r].recipient);
        var (store, reply) := MemReserve(run.store, cs[r].kind, cs[r].recipient, run.runID, script.clock(i, r));
        RecordedOther(run, BookRefused(i, key), n);
        RecordedOther(run.(store := store), Booked(i, key), n);
        if reply == Reserved {
          ReserveRecorded(Called(run.(store := store), Booked(i, key)), cs, script, i, r + 1, reserved + [cs[r]], n);
        }
      }
    }
  }

  lemma {:induction false} ReleaseRecorded(run: Run, reserved: seq<ReceiverConfig>, n: nat)
    requires Recorded(run, n)
    ensures Recorded(Release(run, reserved), n)
    decreases |reserved|
  {
    if reserved != [] {
      var rc := reserved[0];
      var next := run.(store := MemRelease(run.store, rc.kind, rc.recipient));
      RecordedOther(next, Freed(Key(rc.kind, rc.recipient)), n);
      ReleaseRecorded(Called(next, Freed(Key(rc.kind, rc.recipient))), reserved[1..], n);
    }
  }

  lemma StepRecorded(def: Definition, script: Script, run: Run, i: nat)
    requires i < |def.steps| && Recorded(run, i)
    ensures Recorded(StepOf(def, script, run, i).end, i + 1)
  {
    ReserveRecorded(run, def.steps[i].receivers, script, i, 0, [], i);
    var (b, t) := (Booking(def, script, run, i), Trying(def, script, run, i));
    AttemptsRecorded(b.run, def.steps[i], script, i, 1, MaxAttempts(def), None);
    var end := StepOf(def, script, run, i).end;
    if script.create(i).Some? {
      RecordedLater(run, end, i);
    } else {
      RecordedLater(if b.error.Some? then b.run else t.run, end, i);
    }
  }

  lemma RecordedLater(run: Run, out: Run, i: nat)
    requires Recorded(run, i) && out.calls == run.calls && out.result.receivers == run.result.receivers
    ensures Recorded(out, i + 1)
  {
  }

  /** result.Receivers has one entry per collection, and their trigger indices never go down. */
  lemma OneEntryPerCollection(def: Definition, script: Script, runID: string, vars: Env, store: Mem)
    ensures var out := Execute(def, script, runID, vars, store);
            var steps := Indices(out.result.receivers);
            steps == CollectSteps(out.calls) && forall x, y | 0 <= x < y < |steps| :: steps[x] <= steps[y]
  {
    var last := |def.steps|;
    var law := EngineLaws.Law(
      (r: Run, n: nat, debt: ()) => n <= last && Recorded(r, n),
      (r: Run, debt: ()) => Recorded(r, last),
      (debt: (), reserved) => ());
    forall r: Run, n: nat, debt: () | n < last && law.ready(r, n, debt)
      ensures EngineLaws.StepKept(StepOf(def, script, r, n), n, law, debt)
    {
      StepRecorded(def, script, r, n);
    }
    forall r: Run, reserved: seq<ReceiverConfig>, debt: () | law.ends(r, debt)
      ensures law.ends(Release(r, reserved), debt)
    {
      ReleaseRecorded(r, reserved, last);
    }
    if def.enabled { EngineLaws.StepsKeep(def, script, Run(runID, NewResult(runID), vars, store, []), 0, law, ()); }
  }
}
