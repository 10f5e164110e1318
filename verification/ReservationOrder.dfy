/** When a run books and releases: it keeps the discipline that mutual exclusion rests on. */
module ReservationOrder {
  import opened Text
  import opened Stores
  import opened Engine
  import opened ReservationLaws
  import Lifecycle

  // ---- Recipients stay held until the run returns ----

  lemma {:induction false} PrefixSeen(calls: seq<Call>, n: nat)
    requires n <= |calls| && Lifecycle.Watch(Lifecycle.INITIAL, calls) != Lifecycle.Rejected
    ensures Lifecycle.Watch(Lifecycle.INITIAL, calls[..n]) != Lifecycle.Rejected
    decreases |calls|
  {
    if n == |calls| {
      assert calls[..n] == calls;
    } else {
      PrefixSeen(calls[..|calls| - 1], n);
      assert calls[..|calls| - 1][..n] == calls[..n];
    }
  }

  lemma {:induction false} ReturningStays(calls: seq<Call>, n: nat)
    requires n < |calls| && calls[n].Freed? && Lifecycle.Watch(Lifecycle.INITIAL, calls) != Lifecycle.Rejected
    ensures Lifecycle.Watch(Lifecycle.INITIAL, calls).returning
    decreases |calls|
  {
    if n < |calls| - 1 { ReturningStays(calls[..|calls| - 1], n); }
  }

  /** After a release only releases follow. */
  lemma ReleasesComeLast(calls: seq<Call>, n: nat, m: nat)
    requires Lifecycle.Watch(Lifecycle.INITIAL, calls) != Lifecycle.Rejected
    requires n < m < |calls| && calls[n].Freed?
    ensures calls[m].Freed?
  {
    PrefixSeen(calls, m + 1);
    PrefixSeen(calls, m);
    assert calls[..m + 1][..m] == calls[..m] && calls[..m + 1][m] == calls[m];
    ReturningStays(calls[..m], n);
  }

  lemma {:induction false} NothingFreed(calls: seq<Call>)
    requires forall c <- calls :: !c.Freed?
    ensures Held(calls) == AllBooked(calls)
  {
    if calls != [] {
      var before, c := calls[..|calls| - 1], calls[|calls| - 1];
      assert calls == before + [c];
      NothingFreed(before);
      assert AllBooked(calls) == AllBooked(before) + if c.Booked? then {c.key} else {};
    }
  }

  /** At every call of a trigger or a receiver, everything the run booked so far, in this step and
      in all earlier ones, is still held. */
  lemma HeldUntilReturn(def: Definition, script: Script, runID: string, vars: Env, store: Mem, n: nat)
    requires Lifecycle.Schedules(def, script)
    requires var calls := Execute(def, script, runID, vars, store).calls; n < |calls| && !calls[n].Freed?
    ensures var calls := Execute(def, script, runID, vars, store).calls;
            Held(calls[..n + 1]) == AllBooked(calls[..n + 1])
  {
    var calls := Execute(def, script, runID, vars, store).calls;
    Lifecycle.ReceiverLifecycle(def, script, runID, vars, store);
    forall c | c in calls[..n + 1] ensures !c.Freed? {
      var i :| 0 <= i < n + 1 && calls[i] == c;
      if c.Freed? && i < n { ReleasesComeLast(calls, i, n); }
    }
    NothingFreed(calls[..n + 1]);
  }

  // ---- A run releases only what it holds ----

  /** Every release is of a recipient held at that moment. */
  ghost predicate Orderly(calls: seq<Call>) {
    forall n | 0 <= n < |calls| && calls[n].Freed? :: calls[n].key in Held(calls[..n])
  }

  ghost predicate Distinct(cs: seq<ReceiverConfig>) {
    forall i, j | 0 <= i < j < |cs| :: Key(cs[i].kind, cs[i].recipient) != Key(cs[j].kind, cs[j].recipient)
  }

  lemma OrderlyGrowth(before: seq<Call>, after: seq<Call>)
    requires Orderly(before) && before <= after && forall n | |before| <= n < |after| :: !after[n].Freed?
    ensures Orderly(after)
  {
    forall n | 0 <= n < |after| && after[n].Freed? ensures after[n].key in Held(after[..n]) {
      assert after[n] == before[n] && after[..n] == before[..n];
    }
  }

  lemma OrderlyFreed(calls: seq<Call>, k: string)
    requires Orderly(calls) && k in Held(calls)
    ensures Orderly(calls + [Freed(k)])
  {
    var after := calls + [Freed(k)];
    forall n | 0 <= n < |after| && after[n].Freed? ensures after[n].key in Held(after[..n]) {
      if n < |calls| { assert after[..n] == calls[..n]; } else { assert after[..n] == calls; }
    }
  }

  lemma {:induction false} ReserveDistinct(initial: Table, run: Run, until: nat, cs: seq<ReceiverConfig>,
                                           script: Script, i: nat, r: nat, reserved: seq<ReceiverConfig>)
    requires r <= |cs| && Ledger(initial, run, until) && WithinTtl(script, until)
    requires Distinct(reserved) && Keys(reserved) <= Held(run.calls)
    ensures Distinct(ReserveFrom(run, cs, script, i, r, reserved).reserved)
    decreases |cs| - r
  {
    if r < |cs| {
      if cs[r].recipient == "" {
        ReserveDistinct(initial, run, until, cs, script, i, r + 1, reserved);
      } else {
        var k := Key(cs[r].kind, cs[r].recipient);
        var (store, reply) := MemReserve(run.store, cs[r].kind, cs[r].recipient, run.runID, script.clock(i, r));
        if reply == Reserved {
          LedgerBook(initial, run, until, i, cs[r], script.clock(i, r));
          HeldCalled(run.(store := store), Booked(i, k));
          OneMoreKey(reserved, cs[r], Held(run.calls));
          var next := Called(run.(store := store), Booked(i, k));
          ReserveDistinct(initial, next, until, cs, script, i, r + 1, reserved + [cs[r]]);
        }
      }
    }
  }

  lemma OneMoreKey(reserved: seq<ReceiverConfig>, rc: ReceiverConfig, held: set<string>)
    requires Distinct(reserved) && Keys(reserved) <= held && Key(rc.kind, rc.recipient) !in held
    ensures Distinct(reserved + [rc]) && Keys(reserved + [rc]) <= held + {Key(rc.kind, rc.recipient)}
  {
    forall i | 0 <= i < |reserved| ensures Key(reserved[i].kind, reserved[i].recipient) in held {
      assert reserved[i] in reserved;
    }
  }

  lemma {:induction false} ReleaseOrderly(run: Run, reserved: seq<ReceiverConfig>)
    requires Orderly(run.calls) && Distinct(reserved) && Keys(reserved) <= Held(run.calls)
    ensures Orderly(Release(run, reserved).calls)
    decreases |reserved|
  {
    if reserved != [] {
      var rc := reserved[0];
      var k := Key(rc.kind, rc.recipient);
      var next := run.(store := MemRelease(run.store, rc.kind, rc.recipient));
      assert rc in reserved && k in Keys(reserved);
      OrderlyFreed(run.calls, k);
      HeldCalled(next, Freed(k));
      forall q | q in Keys(reserved[1..]) ensures q in Held(run.calls) - {k} {
        var c :| c in reserved[1..] && Key(c.kind, c.recipient) == q;
        assert c in reserved;
        var j :| 0 <= j < |reserved[1..]| && reserved[1..][j] == c;
        assert reserved[j + 1] == c;
      }
      ReleaseOrderly(Called(next, Freed(k)), reserved[1..]);
    }
  }

  /** Up to the end of the attempts nothing is released. */
  lemma StepOrderly(initial: Table, def: Definition, script: Script, run: Run, i: nat, until: nat)
    requires i < |def.steps| && Orderly(run.calls) && Ledger(initial, run, until) && WithinTtl(script, until)
    ensures var s := StepOf(def, script, run, i); Orderly(s.end.calls) && Distinct(s.reserved)
  {
    var (b, t) := (Booking(def, script, run, i), Trying(def, script, run, i));
    ReserveCalls(run, def.steps[i].receivers, script, i, 0, []);
    ReserveDistinct(initial, run, until, def.steps[i].receivers, script, i, 0, []);
    OrderlyGrowth(run.calls, b.run.calls);
    AttemptsGrow(b.run, def.steps[i], script, i, 1, MaxAttempts(def), None);
    OrderlyGrowth(b.run.calls, t.run.calls);
  }

  /** What a step that passed booked is still held when the run begins to give it back. */
  lemma StillHeldAtReturn(initial: Table, def: Definition, script: Script, run: Run, i: nat, until: nat)
    requires i < |def.steps| && Ledger(initial, run, until) && WithinTtl(script, until) && NoneFrom(run.calls, i)
    requires StepOf(def, script, run, i).passed
    ensures var s := StepOf(def, script, run, i);
            && Ledger(initial, s.end, until) && NoneFrom(s.end.calls, i + 1)
            && Keys(s.reserved) <= Held(StepsFrom(def, script, s.end, i + 1).calls)
  {
    TriedLedger(initial, def, script, run, i, until);
    StepsConserve(initial, def, script, StepOf(def, script, run, i).end, i + 1, until);
  }

  /** A step that did not pass. */
  lemma LastStepOrderly(initial: Table, def: Definition, script: Script, run: Run, i: nat, until: nat)
    requires i < |def.steps| && Ledger(initial, run, until) && WithinTtl(script, until) && NoneFrom(run.calls, i)
    requires Orderly(run.calls) && !StepOf(def, script, run, i).passed
    ensures var s := StepOf(def, script, run, i); Orderly(Release(s.end, s.reserved).calls)
  {
    var s := StepOf(def, script, run, i);
    StepOrderly(initial, def, script, run, i, until);
    if s.reserved != [] {
      TriedLedger(initial, def, script, run, i, until);
      ReleaseOrderly(s.end, s.reserved);
    }
  }

  lemma {:induction false} StepsOrderly(initial: Table, def: Definition, script: Script, run: Run, i: nat, until: nat)
    requires i <= |def.steps| && Ledger(initial, run, until) && WithinTtl(script, until) && NoneFrom(run.calls, i)
    requires Orderly(run.calls)
    ensures Orderly(StepsFrom(def, script, run, i).calls)
    decreases |def.steps| - i
  {
    if i < |def.steps| {
      var s := StepOf(def, script, run, i);
      if s.passed {
        StepOrderly(initial, def, script, run, i, until);
        StillHeldAtReturn(initial, def, script, run, i, until);
        StepsOrderly(initial, def, script, s.end, i + 1, until);
        ReleaseOrderly(StepsFrom(def, script, s.end, i + 1), s.reserved);
      } else {
        LastStepOrderly(initial, def, script, run, i, until);
      }
    }
  }

  /** A run within one TTL never releases a recipient that it does not hold, although neither the
      run nor the store checks it. */
  lemma ReleasesOnlyHeld(def: Definition, script: Script, runID: string, vars: Env, store: Mem, until: nat)
    requires WithinTtl(script, until)
    ensures Orderly(Execute(def, script, runID, vars, store).calls)
  {
    var run := Run(runID, NewResult(runID), vars, store, []);
    if def.enabled { StepsOrderly(store.reservations, def, script, run, 0, until); }
  }
}
