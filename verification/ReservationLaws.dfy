/** Conservation of reservations by one run: what it still holds when it returns. */
module ReservationLaws {
  import opened Text
  import opened Stores
  import opened Engine
  import opened EngineLaws

  /** The recipients booked and not yet given back, by the record of calls. */
  function Held(calls: seq<Call>): set<string> {
    if calls == [] then {}
    else
      var before := Held(calls[..|calls| - 1]);
      match calls[|calls| - 1]
      case Booked(_, k) => before + {k}
      case Freed(k) => before - {k}
      case _ => before
  }

  function AllBooked(calls: seq<Call>): set<string> {
    set c | c in calls && c.Booked? :: c.key
  }

  /** The recipients booked in a step that was refused a reservation. */
  function Leftover(calls: seq<Call>): set<string> {
    set c, d | c in calls && d in calls && c.Booked? && d.BookRefused? && c.step == d.step :: c.key
  }

  /** What the store holds agrees with the record: held recipients are booked in the run's name
      until at least `until`, returned ones are free, and the others are as before the run. */
  ghost predicate Ledger(initial: Table, run: Run, until: nat) {
    forall k ::
      if k in Held(run.calls) then
        && k in run.store.reservations && run.store.reservations[k].runID == run.runID
        && until <= run.store.reservations[k].expiresAt
      else if k in AllBooked(run.calls) then k !in run.store.reservations
      else (k in run.store.reservations <==> k in initial) && (k in initial ==> run.store.reservations[k] == initial[k])
  }

  /** All reservation calls happen before `until`, which is within the TTL of each. */
  ghost predicate WithinTtl(script: Script, until: nat) {
    forall i, r :: script.clock(i, r) < until <= script.clock(i, r) + RESERVATION_TTL
  }

  lemma HeldCalled(run: Run, c: Call)
    ensures Held(Called(run, c).calls) ==
            match c
            case Booked(_, k) => Held(run.calls) + {k}
            case Freed(k) => Held(run.calls) - {k}
            case _ => Held(run.calls)
    ensures AllBooked(Called(run, c).calls) == AllBooked(run.calls) + if c.Booked? then {c.key} else {}
  {
    assert (run.calls + [c])[..|run.calls|] == run.calls;
    assert forall d :: d in run.calls + [c] <==> d in run.calls || d == c;
  }

  lemma {:induction false} HeldWasBooked(calls: seq<Call>)
    ensures Held(calls) <= AllBooked(calls)
  {
    if calls != [] {
      HeldWasBooked(calls[..|calls| - 1]);
      assert calls == calls[..|calls| - 1] + [calls[|calls| - 1]];
    }
  }

  // ---- Trigger and receiver calls reserve nothing ----

  predicate Inner(c: Call) {
    !c.Booked? && !c.BookRefused? && !c.Freed?
  }

  ghost predicate GrewBy(before: seq<Call>, after: seq<Call>) {
    before <= after && forall n | |before| <= n < |after| :: Inner(after[n])
  }

  lemma {:induction false} StartGrows(run: Run, n: nat, script: Script, i: nat, a: nat, r: nat)
    requires r <= n
    ensures GrewBy(run.calls, StartFrom(run, n, script, i, a, r).0.calls)
    decreases n - r
  {
    if r < n && script.start(i, a, r) == None { StartGrows(Called(run, Started(i, a, r)), n, script, i, a, r + 1); }
  }

  lemma {:induction false} MergeGrows(run: Run, cs: seq<ReceiverConfig>, script: Script, i: nat, a: nat,
                                      order: seq<nat>)
    ensures GrewBy(run.calls, MergeFrom(run, cs, script, i, a, order).calls)
    decreases |order|
  {
    if order != [] {
      var kind := KindAt(cs, order[0]);
      MergeGrows(Finish(run, script, i, a, kind, order[0]), cs, script, i, a, order[1..]);
    }
  }

  lemma {:induction false} StopGrows(run: Run, n: nat, i: nat, a: nat, r: nat)
    requires r <= n
    ensures GrewBy(run.calls, StopFrom(run, n, i, a, r).calls)
    decreases n - r
  {
    if r < n { StopGrows(Called(run, Stopped(i, a, r)), n, i, a, r + 1); }
  }

  lemma ReceiveGrows(run: Run, step: StepConfig, script: Script, i: nat, a: nat)
    ensures GrewBy(run.calls, Receive(run, step, script, i, a).0.calls)
  {
    if !NoWait(step) {
      StartGrows(run, |step.receivers|, script, i, a, 0);
      var (started, error) := StartFrom(run, |step.receivers|, script, i, a, 0);
      if error == None {
        MergeGrows(started, step.receivers, script, i, a, script.order(i, a));
        StopGrows(CollectAll(started, step.receivers, script, i, a), |step.receivers|, i, a, 0);
      }
    }
  }

  lemma AttemptGrows(run: Run, step: StepConfig, script: Script, i: nat, a: nat, lastError: Option<string>)
    ensures GrewBy(run.calls, Attempt(run, step, script, i, a, lastError).tried.run.calls)
  {
    var next := NextAttempt(run, i, a);
    match script.execute(i, a, run.vars)
    case TriggerFailed(_, _) =>
    case Fired(vars, extracted) => ReceiveGrows(next.(vars := vars + extracted), step, script, i, a);
  }

  lemma {:induction false} AttemptsGrow(run: Run, step: StepConfig, script: Script, i: nat, a: nat, max: nat,
                                        lastError: Option<string>)
    ensures GrewBy(run.calls, AttemptFrom(run, step, script, i, a, max, lastError).run.calls)
    decreases max + 1 - a
  {
    if a <= max {
      var t := Attempt(run, step, script, i, a, lastError);
      AttemptGrows(run, step, script, i, a, lastError);
      if t.again { AttemptsGrow(t.tried.run, step, script, i, a + 1, max, t.tried.lastError); }
    }
  }

  lemma {:induction false} GrowthHoldsSame(before: seq<Call>, after: seq<Call>)
    requires GrewBy(before, after)
    ensures Held(after) == Held(before) && forall c: Call | !Inner(c) :: c in after <==> c in before
    decreases |after|
  {
    if |after| == |before| {
      assert after == before;
    } else {
      var n := |after| - 1;
      GrowthHoldsSame(before, after[..n]);
      assert after == after[..n] + [after[n]];
    }
  }

  // ---- Booking and returning ----

  function Keys(cs: seq<ReceiverConfig>): set<string> {
    set c | c in cs :: Key(c.kind, c.recipient)
  }

  lemma LedgerBook(initial: Table, run: Run, until: nat, i: nat, rc: ReceiverConfig, now: nat)
    requires Ledger(initial, run, until) && now < until <= now + RESERVATION_TTL
    ensures var (store, reply) := MemReserve(run.store, rc.kind, rc.recipient, run.runID, now);
            var k := Key(rc.kind, rc.recipient);
            reply == Reserved ==>
              k !in Held(run.calls) && Ledger(initial, Called(run.(store := store), Booked(i, k)), until)
    ensures var k := Key(rc.kind, rc.recipient); Ledger(initial, Called(run, BookRefused(i, k)), until)
  {
    var (store, reply) := MemReserve(run.store, rc.kind, rc.recipient, run.runID, now);
    var k := Key(rc.kind, rc.recipient);
    HeldCalled(run.(store := store), Booked(i, k));
    HeldCalled(run, BookRefused(i, k));
  }

  /** What one reservation call adds to the record. */
  lemma {:induction false} ReserveCalls(run: Run, cs: seq<ReceiverConfig>, script: Script, i: nat, r: nat,
                                        reserved: seq<ReceiverConfig>)
    requires r <= |cs|
    ensures var b := ReserveFrom(run, cs, script, i, r, reserved);
            && run.calls <= b.run.calls && Keys(reserved) <= Keys(b.reserved)
            && (forall n | |run.calls| <= n < |b.run.calls| ::
                  Reserving(b.run.calls[n], i, Keys(b.reserved), b.error.Some?))
            && (forall k | k in Keys(b.reserved) - Keys(reserved) :: Booked(i, k) in b.run.calls)
            && (b.error.Some? ==> exists k :: BookRefused(i, k) in b.run.calls)
    decreases |cs| - r
  {
    if r < |cs| {
      if cs[r].recipient == "" {
        ReserveCalls(run, cs, script, i, r + 1, reserved);
      } else {
        var k := Key(cs[r].kind, cs[r].recipient);
        var (store, reply) := MemReserve(run.store, cs[r].kind, cs[r].recipient, run.runID, script.clock(i, r));
        if reply == Reserved {
          var next := Called(run.(store := store), Booked(i, k));
          assert Keys(reserved + [cs[r]]) == Keys(reserved) + {k};
          ReserveCalls(next, cs, script, i, r + 1, reserved + [cs[r]]);
          assert next.calls[|run.calls|] == Booked(i, k);
        } else {
          assert Called(run, BookRefused(i, k)).calls[|run.calls|] == BookRefused(i, k);
        }
      }
    }
  }

  predicate Reserving(c: Call, i: nat, keys: set<string>, refused: bool) {
    (c.Booked? && c.step == i && c.key in keys) || (refused && c.BookRefused? && c.step == i)
  }

  lemma KeysStep(reserved: seq<ReceiverConfig>, rc: ReceiverConfig, before: set<string>, after: set<string>)
    requires var k := Key(rc.kind, rc.recipient); k !in before && before + {k} <= after
    ensures var k := Key(rc.kind, rc.recipient);
            Keys(reserved + [rc]) + (after - (before + {k})) == Keys(reserved) + (after - before)
  {
    assert Keys(reserved + [rc]) == Keys(reserved) + {Key(rc.kind, rc.recipient)};
  }

  /** Everything one reservation call books is new, and recorded under its step. */
  lemma {:induction false} ReserveLedger(initial: Table, run: Run, until: nat, cs: seq<ReceiverConfig>, script: Script,
                                         i: nat, r: nat, reserved: seq<ReceiverConfig>)
    requires r <= |cs| && Ledger(initial, run, until) && WithinTtl(script, until)
    ensures var b := ReserveFrom(run, cs, script, i, r, reserved);
            && Ledger(initial, b.run, until) && Held(run.calls) <= Held(b.run.calls)
            && Keys(b.reserved) == Keys(reserved) + (Held(b.run.calls) - Held(run.calls))
    decreases |cs| - r
  {
    if r < |cs| {
      if cs[r].recipient == "" {
        ReserveLedger(initial, run, until, cs, script, i, r + 1, reserved);
      } else {
        var k := Key(cs[r].kind, cs[r].recipient);
        var (store, reply) := MemReserve(run.store, cs[r].kind, cs[r].recipient, run.runID, script.clock(i, r));
        LedgerBook(initial, run, until, i, cs[r], script.clock(i, r));
        HeldCalled(run, BookRefused(i, k));
        if reply == Reserved {
          var next := Called(run.(store := store), Booked(i, k));
          HeldCalled(run.(store := store), Booked(i, k));
          ReserveLedger(initial, next, until, cs, script, i, r + 1, reserved + [cs[r]]);
          var b := ReserveFrom(next, cs, script, i, r + 1, reserved + [cs[r]]);
          KeysStep(reserved, cs[r], Held(run.calls), Held(b.run.calls));
        }
      }
    }
  }

  lemma {:induction false} ReleaseLedger(initial: Table, run: Run, until: nat, reserved: seq<ReceiverConfig>)
    requires Ledger(initial, run, until) && Keys(reserved) <= AllBooked(run.calls)
    ensures var out := Release(run, reserved);
            && Ledger(initial, out, until) && Held(out.calls) == Held(run.calls) - Keys(reserved)
            && (forall c: Call | !c.Freed? :: c in out.calls <==> c in run.calls)
    decreases |reserved|
  {
    if reserved == [] {
      assert Keys([]) == {};
    } else {
      var rc := reserved[0];
      var k := Key(rc.kind, rc.recipient);
      var next := run.(store := MemRelease(run.store, rc.kind, rc.recipient));
      assert Keys(reserved) == {k} + Keys(reserved[1..]) by {
        assert forall c :: c in reserved <==> c == rc || c in reserved[1..];
      }
      HeldCalled(next, Freed(k));
      ReleaseLedger(initial, Called(next, Freed(k)), until, reserved[1..]);
    }
  }

  // ---- Whole runs ----

  /** Nothing was refused yet, and no booking is recorded for step i or later. */
  ghost predicate NoneFrom(calls: seq<Call>, i: nat) {
    forall c <- calls :: !c.BookRefused? && (c.Booked? ==> c.step < i)
  }

  /** From step i on, the run gives back all it books, except in a step that is refused. */
  ghost predicate Conserves(initial: Table, run: Run, out: Run, until: nat) {
    && Ledger(initial, out, until)
    && Held(out.calls) == Held(run.calls) + Leftover(out.calls)
    && Held(run.calls) !! Leftover(out.calls)
    && (forall c <- run.calls | c.Booked? :: c in out.calls)
  }

  /** The attempts of a step book and free nothing. */
  lemma AttemptsLedger(initial: Table, before: Run, after: Run, step: StepConfig, script: Script, i: nat, max: nat,
                       until: nat)
    requires Ledger(initial, before, until)
    requires after == AttemptFrom(before, step, script, i, 1, max, None).run
    ensures Ledger(initial, after, until) && Held(after.calls) == Held(before.calls)
    ensures AllBooked(after.calls) == AllBooked(before.calls)
    ensures forall c: Call | !Inner(c) :: c in after.calls <==> c in before.calls
  {
    AttemptsGrow(before, step, script, i, 1, max, None);
    AttemptsKeep(before, step, script, i, 1, max, None);
    GrowthHoldsSame(before.calls, after.calls);
  }

  /** The step passed, and the run goes on holding what it booked there. */
  ghost predicate Holding(initial: Table, run: Run, s: Stepped, i: nat, until: nat) {
    && Ledger(initial, s.end, until) && NoneFrom(s.end.calls, i + 1)
    && Held(s.end.calls) == Held(run.calls) + Keys(s.reserved) && Held(run.calls) !! Keys(s.reserved)
    && Keys(s.reserved) <= AllBooked(s.end.calls)
    && (forall c <- run.calls | c.Booked? :: c in s.end.calls)
  }

  lemma TriedLedger(initial: Table, def: Definition, script: Script, run: Run, i: nat, until: nat)
    requires i < |def.steps| && Ledger(initial, run, until) && WithinTtl(script, until) && NoneFrom(run.calls, i)
    requires script.create(i) == None && Booking(def, script, run, i).error == None
    ensures Holding(initial, run, StepOf(def, script, run, i), i, until)
  {
    var (b, t) := (Booking(def, script, run, i), Trying(def, script, run, i));
    BookingLedger(initial, def, script, run, i, until);
    AttemptsLedger(initial, b.run, t.run, def.steps[i], script, i, MaxAttempts(def), until);
  }

  lemma BookingLedger(initial: Table, def: Definition, script: Script, run: Run, i: nat, until: nat)
    requires i < |def.steps| && Ledger(initial, run, until) && WithinTtl(script, until) && NoneFrom(run.calls, i)
    requires Booking(def, script, run, i).error == None
    ensures var b := Booking(def, script, run, i);
            && Ledger(initial, b.run, until) && NoneFrom(b.run.calls, i + 1)
            && Held(b.run.calls) == Held(run.calls) + Keys(b.reserved) && Held(run.calls) !! Keys(b.reserved)
            && Keys(b.reserved) <= AllBooked(b.run.calls) && (forall c <- run.calls | c.Booked? :: c in b.run.calls)
  {
    var b := Booking(def, script, run, i);
    ReserveLedger(initial, run, until, def.steps[i].receivers, script, i, 0, []);
    BookingCalls(def, script, run, i);
    assert Keys([]) == {};
    HeldWasBooked(b.run.calls);
  }

  lemma BookingCalls(def: Definition, script: Script, run: Run, i: nat)
    requires i < |def.steps| && NoneFrom(run.calls, i) && Booking(def, script, run, i).error == None
    ensures var b := Booking(def, script, run, i);
            NoneFrom(b.run.calls, i + 1) && forall c <- run.calls | c.Booked? :: c in b.run.calls
  {
    var b := Booking(def, script, run, i);
    ReserveCalls(run, def.steps[i].receivers, script, i, 0, []);
    assert b.run.calls == run.calls + b.run.calls[|run.calls|..];
  }

  lemma RefusedConserves(initial: Table, def: Definition, script: Script, run: Run, i: nat, until: nat)
    requires i < |def.steps| && Ledger(initial, run, until) && WithinTtl(script, until) && NoneFrom(run.calls, i)
    requires Booking(def, script, run, i).error.Some?
    ensures Conserves(initial, run, Booking(def, script, run, i).run, until)
  {
    var b := Booking(def, script, run, i);
    ReserveLedger(initial, run, until, def.steps[i].receivers, script, i, 0, []);
    ReserveCalls(run, def.steps[i].receivers, script, i, 0, []);
    assert Keys([]) == {};
    PrefixLeft(run.calls, b.run.calls, i, Keys(b.reserved));
  }

  /** What a refused step leaves over is the prefix it had booked. */
  lemma PrefixLeft(before: seq<Call>, after: seq<Call>, i: nat, keys: set<string>)
    requires NoneFrom(before, i) && before <= after
    requires forall n | |before| <= n < |after| :: Reserving(after[n], i, keys, true)
    requires forall k <- keys :: Booked(i, k) in after
    requires exists q :: BookRefused(i, q) in after
    ensures Leftover(after) == keys
    ensures forall c <- before | c.Booked? :: c in after
  {
    assert after == before + after[|before|..];
    var q :| BookRefused(i, q) in after;
    forall k ensures k in Leftover(after) <==> k in keys {
      if k in keys { assert Booked(i, k) in after && BookRefused(i, q) in after; }
    }
  }

  lemma NothingLeft(initial: Table, run: Run, out: Run, i: nat, until: nat)
    requires Ledger(initial, run, until) && NoneFrom(run.calls, i)
    requires out.calls == run.calls && out.store == run.store && out.runID == run.runID
    ensures Conserves(initial, run, out, until)
  {
    assert Leftover(out.calls) == {};
  }

  /** A step that does not pass: it gives its recipients back, or was refused one. */
  lemma LastStepConserves(initial: Table, def: Definition, script: Script, run: Run, i: nat, until: nat)
    requires i < |def.steps| && Ledger(initial, run, until) && WithinTtl(script, until) && NoneFrom(run.calls, i)
    requires !StepOf(def, script, run, i).passed
    ensures var s := StepOf(def, script, run, i); Conserves(initial, run, Release(s.end, s.reserved), until)
  {
    var s := StepOf(def, script, run, i);
    if script.create(i).Some? {
      NothingLeft(initial, run, s.end, i, until);
    } else if Booking(def, script, run, i).error.Some? {
      RefusedConserves(initial, def, script, run, i, until);
    } else {
      TriedLedger(initial, def, script, run, i, until);
      NothingLeft(initial, s.end, s.end, i + 1, until);
      ReturnConserves(initial, run, s, i, s.end, until);
    }
  }

  lemma {:induction false} StepsConserve(initial: Table, def: Definition, script: Script, run: Run, i: nat, until: nat)
    requires i <= |def.steps| && Ledger(initial, run, until) && WithinTtl(script, until) && NoneFrom(run.calls, i)
    ensures Conserves(initial, run, StepsFrom(def, script, run, i), until)
    decreases |def.steps| - i
  {
    if i == |def.steps| {
      NothingLeft(initial, run, KeepVars(run), i, until);
    } else {
      var s := StepOf(def, script, run, i);
      if s.passed {
        TriedLedger(initial, def, script, run, i, until);
        StepsConserve(initial, def, script, s.end, i + 1, until);
        ReturnConserves(initial, run, s, i, StepsFrom(def, script, s.end, i + 1), until);
      } else {
        LastStepConserves(initial, def, script, run, i, until);
      }
    }
  }

  lemma LeftoverSame(before: seq<Call>, after: seq<Call>)
    requires forall c: Call | !c.Freed? :: c in after <==> c in before
    ensures Leftover(after) == Leftover(before)
  {
  }

  /** Giving back one step's recipients at the end. */
  lemma ReturnConserves(initial: Table, run: Run, s: Stepped, i: nat, end: Run, until: nat)
    requires Holding(initial, run, s, i, until) && Conserves(initial, s.end, end, until)
    ensures Conserves(initial, run, Release(end, s.reserved), until)
  {
    assert AllBooked(s.end.calls) <= AllBooked(end.calls);
    ReleaseLedger(initial, end, until, s.reserved);
    LeftoverSame(end.calls, Release(end, s.reserved).calls);
  }

  /** Reservation conservation: a run whose reservation calls fall within one TTL ends holding
      nothing, except, when a step was refused a recipient, exactly what that step had booked
      before; held recipients are still booked in its name, all others it booked are free, and
      those it never booked are as they were. */
  lemma ReservationConservation(def: Definition, script: Script, runID: string, vars: Env, store: Mem, until: nat)
    requires WithinTtl(script, until)
    ensures var out := Execute(def, script, runID, vars, store);
            Held(out.calls) == Leftover(out.calls) && Ledger(store.reservations, out, until)
  {
    var run := Run(runID, NewResult(runID), vars, store, []);
    if def.enabled { StepsConserve(store.reservations, def, script, run, 0, until); }
  }

  /** The exception is reached: two recipients, of which somebody else holds the second. The run
      returns and the first stays booked in its name. */
  lemma RefusedStepLeaves(def: Definition, script: Script, runID: string, vars: Env, store: Mem, k: string, l: string)
    requires def.enabled && |def.steps| == 1 && |def.steps[0].receivers| == 2 && script.create(0) == None
    requires forall rc <- def.steps[0].receivers :: rc.recipient != ""
    requires var cs := def.steps[0].receivers;
             Key(cs[0].kind, cs[0].recipient) == k != l == Key(cs[1].kind, cs[1].recipient)
    requires k !in store.reservations && l in store.reservations && script.clock(0, 1) < store.reservations[l].expiresAt
    ensures var out := Execute(def, script, runID, vars, store);
            && out.calls == [Booked(0, k), BookRefused(0, l)]
            && Leftover(out.calls) == {k}
            && k in out.store.reservations && out.store.reservations[k].runID == runID
            && out.result.status.Error?
  {
    var (cs, run) := (def.steps[0].receivers, Run(runID, NewResult(runID), vars, store, []));
    assert cs[0] in cs && cs[1] in cs;
    var (booked, reply) := MemReserve(store, cs[0].kind, cs[0].recipient, runID, script.clock(0, 0));
    var one := Called(run.(store := booked), Booked(0, k));
    assert MemReserve(booked, cs[1].kind, cs[1].recipient, runID, script.clock(0, 1)).1 != Reserved;
    assert ReserveFrom(run, cs, script, 0, 0, []) == ReserveFrom(one, cs, script, 0, 1, [] + [cs[0]]);
    var out := Execute(def, script, runID, vars, store);
    assert out.calls == [Booked(0, k), BookRefused(0, l)];
    assert out.calls[0] in out.calls && out.calls[1] in out.calls;
  }
}
