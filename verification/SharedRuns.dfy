/** Many runs of the engine on one store: every run follows one small automaton of reservation calls,
    automata interleaved in time never break the exclusion of a recipient, and so neither do runs. */
module SharedRuns {
  import opened Text
  import opened Stores
  import opened Engine
  import EngineLaws
  import ReservationLaws
  import Reservations

  // ---- The automaton of one run ----

  /** Active: booked in the current step, and before it the keys of earlier steps, the latest step
      first. Returning: what is still to be released, in this order. */
  datatype Control =
    | Active(step: nat, current: seq<string>, deferred: seq<string>)
    | Returning(todo: seq<string>)

  const BEGIN := Active(0, [], [])

  /** What the run releases if nothing more is booked. */
  function Left(c: Control): seq<string> {
    match c case Active(_, current, deferred) => current + deferred case Returning(todo) => todo
  }

  /** The control when step i asks for a recipient. */
  function AtStep(c: Control, i: nat): Control
    requires c.Active?
  {
    if i == c.step then c else Active(i, [], c.current + c.deferred)
  }

  /** What a call makes of the control; None for a call that no run makes there. A refused step
      leaves its own bookings behind. */
  function Follow(c: Control, call: Call): Option<Control> {
    match call
    case Booked(i, k) =>
      if !c.Active? || i < c.step then None
      else
        var b := AtStep(c, i);
        Some(b.(current := b.current + [k]))
    case BookRefused(i, k) => if !c.Active? || i < c.step then None else Some(Returning(AtStep(c, i).deferred))
    case Freed(k) => if Left(c) != [] && Left(c)[0] == k then Some(Returning(Left(c)[1..])) else None
    case _ => Some(c)
  }

  function FollowAll(c: Control, calls: seq<Call>): Option<Control> {
    if calls == [] then Some(c)
    else
      match FollowAll(c, calls[..|calls| - 1])
      case None => None
      case Some(d) => Follow(d, calls[|calls| - 1])
  }

  // ---- Every run of the engine follows it ----

  function At(run: Run): Option<Control> {
    FollowAll(BEGIN, run.calls)
  }

  lemma AtCalled(run: Run, c: Call)
    ensures At(Called(run, c)) == match At(run) case None => None case Some(d) => Follow(d, c)
  {
    assert (run.calls + [c])[..|run.calls|] == run.calls;
  }

  function KeyList(cs: seq<ReceiverConfig>): seq<string> {
    seq(|cs|, n requires 0 <= n < |cs| => Key(cs[n].kind, cs[n].recipient))
  }

  /** In step i these were booked so far; the control has not moved on to the step before it books. */
  predicate InStep(c: Control, i: nat, booked: seq<string>) {
    c.Active? && if c.step == i then c.current == booked else c.step < i && booked == []
  }

  /** The run is where step i has booked these keys so far, and owes `before` from earlier steps. */
  ghost predicate Asking(run: Run, i: nat, booked: seq<string>, before: seq<string>) {
    At(run).Some? && InStep(At(run).value, i, booked) && Left(At(run).value) == booked + before
  }

  /** The run is where it would release exactly this. */
  ghost predicate Owes(run: Run, keys: seq<string>) {
    At(run).Some? && Left(At(run).value) == keys
  }

  lemma {:induction false} ReserveFollows(run: Run, cs: seq<ReceiverConfig>, script: Script, i: nat, r: nat,
                                          reserved: seq<ReceiverConfig>, before: seq<string>)
    requires r <= |cs| && Asking(run, i, KeyList(reserved), before)
    ensures var b := ReserveFrom(run, cs, script, i, r, reserved);
            if b.error == None then Asking(b.run, i, KeyList(b.reserved), before) else Owes(b.run, before)
    decreases |cs| - r
  {
    if r < |cs| {
      if cs[r].recipient == "" {
        ReserveFollows(run, cs, script, i, r + 1, reserved, before);
      } else {
        var key := Key(cs[r].kind, cs[r].recipient);
        var (store, reply) := MemReserve(run.store, cs[r].kind, cs[r].recipient, run.runID, script.clock(i, r));
        RefusalFollows(run, i, key, KeyList(reserved), before);
        if reply == Reserved {
          var next := Called(run.(store := store), Booked(i, key));
          BookingFollows(run.(store := store), i, key, KeyList(reserved), before);
          assert KeyList(reserved + [cs[r]]) == KeyList(reserved) + [key];
          ReserveFollows(next, cs, script, i, r + 1, reserved + [cs[r]], before);
        }
      }
    }
  }

  lemma BookingFollows(run: Run, i: nat, key: string, booked: seq<string>, before: seq<string>)
    requires Asking(run, i, booked, before)
    ensures Asking(Called(run, Booked(i, key)), i, booked + [key], before)
  {
    AtCalled(run, Booked(i, key));
    var c := At(run).value;
    var b := AtStep(c, i);
    LeftAtStep(c, i, booked, before);
    assert b.current + [key] + b.deferred == (booked + [key]) + before;
  }

  lemma LeftAtStep(c: Control, i: nat, booked: seq<string>, before: seq<string>)
    requires InStep(c, i, booked) && Left(c) == booked + before
    ensures AtStep(c, i) == Active(i, booked, before)
  {
    if c.step == i {
      assert c.deferred == (booked + before)[|booked|..] == before;
    } else {
      assert booked + before == before;
    }
  }

  lemma RefusalFollows(run: Run, i: nat, key: string, booked: seq<string>, before: seq<string>)
    requires Asking(run, i, booked, before)
    ensures Owes(Called(run, BookRefused(i, key)), before)
  {
    AtCalled(run, BookRefused(i, key));
    LeftAtStep(At(run).value, i, booked, before);
  }

  /** Triggers and receivers reserve nothing. */
  lemma {:induction false} InnerFollows(before: seq<Call>, after: seq<Call>)
    requires ReservationLaws.GrewBy(before, after)
    ensures FollowAll(BEGIN, after) == FollowAll(BEGIN, before)
    decreases |after|
  {
    if |after| > |before| {
      InnerFollows(before, after[..|after| - 1]);
    } else {
      assert after == before;
    }
  }

  lemma {:induction false} ReleaseFollows(run: Run, reserved: seq<ReceiverConfig>, before: seq<string>)
    requires Owes(run, KeyList(reserved) + before)
    ensures Owes(Release(run, reserved), before)
    decreases |reserved|
  {
    if reserved == [] {
      assert KeyList(reserved) + before == before;
    } else {
      var rc := reserved[0];
      var key := Key(rc.kind, rc.recipient);
      var next := run.(store := MemRelease(run.store, rc.kind, rc.recipient));
      AtCalled(next, Freed(key));
      assert KeyList(reserved) == [key] + KeyList(reserved[1..]);
      assert (KeyList(reserved) + before)[1..] == KeyList(reserved[1..]) + before;
      ReleaseFollows(Called(next, Freed(key)), reserved[1..], before);
    }
  }

  /** After a step the run owes what it owed before, and what it booked. */
  ghost predicate Followed(s: Stepped, i: nat, before: seq<string>) {
    && Owes(s.end, KeyList(s.reserved) + before)
    && (s.passed ==> Asking(s.end, i + 1, [], KeyList(s.reserved) + before))
  }

  lemma StepFollows(def: Definition, script: Script, run: Run, i: nat, s: Stepped, before: seq<string>)
    requires i < |def.steps| && Asking(run, i, [], before) && s == StepOf(def, script, run, i)
    ensures Followed(s, i, before)
  {
    var (b, t) := (Booking(def, script, run, i), Trying(def, script, run, i));
    assert KeyList([]) == [] && [] + before == before;
    if script.create(i) == None {
      ReserveFollows(run, def.steps[i].receivers, script, i, 0, [], before);
      if b.error == None {
        ReservationLaws.AttemptsGrow(b.run, def.steps[i], script, i, 1, MaxAttempts(def), None);
        InnerFollows(b.run.calls, t.run.calls);
        var keys := KeyList(b.reserved) + before;
        assert [] + keys == keys;
      }
    }
  }

  /** Every run of the engine, whatever is booked in the store and whenever it asks, makes only calls
      of the automaton, and owes nothing when it returns. */
  lemma RunsFollow(def: Definition, script: Script, runID: string, vars: Env, store: Mem)
    ensures var end := FollowAll(BEGIN, Execute(def, script, runID, vars, store).calls);
            end.Some? && Left(end.value) == []
  {
    var law := EngineLaws.Law(
      (r: Run, n: nat, debt: seq<string>) => Asking(r, n, [], debt), (r: Run, debt: seq<string>) => Owes(r, debt),
      (debt: seq<string>, reserved) => KeyList(reserved) + debt);
    forall r: Run, n: nat, debt: seq<string> | n < |def.steps| && law.ready(r, n, debt)
      ensures EngineLaws.StepKept(StepOf(def, script, r, n), n, law, debt)
    {
      StepFollows(def, script, r, n, StepOf(def, script, r, n), debt);
    }
    forall r: Run, reserved: seq<ReceiverConfig>, debt: seq<string> | law.ends(r, law.grow(debt, reserved))
      ensures law.ends(Release(r, reserved), debt)
    {
      ReleaseFollows(r, reserved, debt);
    }
    forall r: Run, debt: seq<string> | law.ready(r, |def.steps|, debt) ensures law.ends(KeepVars(r), debt) {
      assert [] + debt == debt;
    }
    if def.enabled { EngineLaws.StepsKeep(def, script, Run(runID, NewResult(runID), vars, store, []), 0, law, []); }
  }

  // ---- Many runs on one store ----

  /** runs are the controls of the runs that have made a call; w keeps the store, the clock, and
      since when each run holds what it holds. */
  datatype Shared = Shared(w: Reservations.World, runs: map<string, Control>)

  const EMPTY := Shared(Reservations.START, map[])

  datatype Move =
    | Tick(d: nat)
    | Ask(run: string, step: nat, channel: string, recipient: string)
    | Return(run: string, channel: string, recipient: string)

  function ControlOf(s: Shared, r: string): Control {
    if r in s.runs then s.runs[r] else BEGIN
  }

  function BookOf(m: Move): Reservations.Action
    requires m.Ask?
  {
    Reservations.Book(m.run, m.channel, m.recipient)
  }

  /** The call that the run makes, with the answer of the shared store. */
  function CallOf(s: Shared, m: Move): Call
    requires !m.Tick?
  {
    match m
    case Ask(_, i, c, p) =>
      if Reservations.Succeeds(s.w, BookOf(m)) then Booked(i, Key(c, p)) else BookRefused(i, Key(c, p))
    case Return(_, c, p) => Freed(Key(c, p))
  }

  /** The run's automaton makes this call here. */
  predicate Enabled(s: Shared, m: Move) {
    m.Tick? || Follow(ControlOf(s, m.run), CallOf(s, m)).Some?
  }

  /** The run no longer answers for these recipients. */
  function Forgotten(w: Reservations.World, r: string, keys: seq<string>): Reservations.World
    decreases |keys|
  {
    if keys == [] then w else Forgotten(Reservations.Step(w, Reservations.Forget(r, keys[0])), r, keys[1..])
  }

  function Next(s: Shared, m: Move): Shared
    requires Enabled(s, m)
  {
    match m
    case Tick(d) => s.(w := Reservations.Step(s.w, Reservations.Tick(d)))
    case Ask(r, i, c, p) =>
      var control := ControlOf(s, r);
      var w := Reservations.Step(s.w, BookOf(m));
      Shared(if CallOf(s, m).Booked? then w else Forgotten(w, r, AtStep(control, i).current),
             s.runs[r := Follow(control, CallOf(s, m)).value])
    case Return(r, c, p) =>
      Shared(Reservations.Step(s.w, Reservations.GiveBack(r, c, p)),
             s.runs[r := Follow(ControlOf(s, r), CallOf(s, m)).value])
  }

  /** The run holds the recipient exactly when its automaton owes it, and owes it at most once. */
  ghost predicate Matches(w: Reservations.World, r: string, c: Control, key: string) {
    && (Reservations.Holds(w, r, key) <==> key in Left(c))
    && multiset(Left(c))[key] <= 1
  }

  /** Who holds the recipient has it booked in its own name, and is exactly the run whose automaton
      owes it, once. */
  ghost predicate Coherent(s: Shared, key: string) {
    Reservations.Owned(s.w, key) && forall r :: Matches(s.w, r, ControlOf(s, r), key)
  }

  /** One run has moved; the others hold what they held. */
  lemma OneMoved(s: Shared, w: Reservations.World, r: string, c: Control, key: string)
    requires Coherent(s, key) && Reservations.Owned(w, key) && Matches(w, r, c, key)
    requires forall q | q != r :: Reservations.Holds(w, q, key) <==> Reservations.Holds(s.w, q, key)
    ensures Coherent(Shared(w, s.runs[r := c]), key)
  {
    var next := Shared(w, s.runs[r := c]);
    forall q ensures Matches(w, q, ControlOf(next, q), key) {
      assert Matches(s.w, q, ControlOf(s, q), key);
    }
  }

  lemma BookHolds(w: Reservations.World, a: Reservations.Action, key: string)
    requires a.Book? && Reservations.Succeeds(w, a)
    ensures forall q :: Reservations.Holds(Reservations.Step(w, a), q, key) <==>
                          Reservations.Holds(w, q, key) || (q == a.run && Key(a.channel, a.recipient) == key)
  {
  }

  lemma GiveBackHolds(w: Reservations.World, a: Reservations.Action, key: string)
    requires a.GiveBack?
    ensures forall q :: Reservations.Holds(Reservations.Step(w, a), q, key) <==>
                          Reservations.Holds(w, q, key) && !(q == a.run && Key(a.channel, a.recipient) == key)
  {
  }

  lemma {:induction false} ForgottenHolds(w: Reservations.World, r: string, keys: seq<string>, key: string)
    requires Reservations.Owned(w, key)
    ensures var w' := Forgotten(w, r, keys);
            && Reservations.Owned(w', key) && w'.store == w.store && w'.now == w.now
            && (forall q ::
                  Reservations.Holds(w', q, key) <==> Reservations.Holds(w, q, key) && !(q == r && key in keys))
    decreases |keys|
  {
    if keys != [] {
      var w1 := Reservations.Step(w, Reservations.Forget(r, keys[0]));
      assert keys == [keys[0]] + keys[1..];
      ForgottenHolds(w1, r, keys[1..], key);
    }
  }

  lemma LeftOfStep(c: Control, i: nat)
    requires c.Active? && c.step <= i
    ensures Left(AtStep(c, i)) == Left(c)
  {
  }

  lemma BookedLeft(c: Control, i: nat, k: string, key: string)
    requires c.Active? && c.step <= i
    ensures var d := Follow(c, Booked(i, k)).value;
            multiset(Left(d)) == multiset(Left(c)) + multiset{k}
  {
    LeftOfStep(c, i);
    var b := AtStep(c, i);
    assert b.current + [k] + b.deferred == b.current + ([k] + b.deferred);
  }

  /** A booking of the recipient that succeeds finds it held by nobody. */
  lemma BookingFindsFree(s: Shared, m: Move)
    requires m.Ask? && Coherent(s, Key(m.channel, m.recipient)) && Reservations.InTime(s.w, Key(m.channel, m.recipient))
    requires Reservations.Succeeds(s.w, BookOf(m))
    ensures forall r :: !Reservations.Holds(s.w, r, Key(m.channel, m.recipient))
  {
    forall r | Reservations.Holds(s.w, r, Key(m.channel, m.recipient)) ensures false {
      Reservations.BookedWhenLate(s.w, BookOf(m), r);
    }
  }

  lemma BookedMatches(s: Shared, m: Move, d: Control, key: string)
    requires Coherent(s, key) && Reservations.InTime(s.w, key) && m.Ask? && Enabled(s, m)
    requires Reservations.Succeeds(s.w, BookOf(m)) && d == Follow(ControlOf(s, m.run), CallOf(s, m)).value
    ensures Matches(Reservations.Step(s.w, BookOf(m)), m.run, d, key)
  {
    var (k, c) := (Key(m.channel, m.recipient), ControlOf(s, m.run));
    assert Matches(s.w, m.run, c, key);
    BookHolds(s.w, BookOf(m), key);
    BookedLeft(c, m.step, k, key);
    if k == key { BookingFindsFree(s, m); }
    assert key in Left(d) <==> key in multiset(Left(d));
    assert key in Left(c) <==> key in multiset(Left(c));
  }

  lemma BookedKeepsCoherent(s: Shared, m: Move, key: string)
    requires Coherent(s, key) && Reservations.InTime(s.w, key) && m.Ask? && Enabled(s, m)
    requires Reservations.Succeeds(s.w, BookOf(m))
    ensures Coherent(Next(s, m), key)
  {
    var d := Follow(ControlOf(s, m.run), CallOf(s, m)).value;
    BookedMatches(s, m, d, key);
    BookHolds(s.w, BookOf(m), key);
    Reservations.StepKeepsOwned(s.w, BookOf(m), key);
    OneMoved(s, Reservations.Step(s.w, BookOf(m)), m.run, d, key);
  }

  lemma RefusedKeepsCoherent(s: Shared, m: Move, key: string)
    requires Coherent(s, key) && m.Ask? && Enabled(s, m) && !Reservations.Succeeds(s.w, BookOf(m))
    ensures Coherent(Next(s, m), key)
  {
    var c := ControlOf(s, m.run);
    var b := AtStep(c, m.step);
    assert Matches(s.w, m.run, c, key) && Reservations.Step(s.w, BookOf(m)) == s.w;
    LeftOfStep(c, m.step);
    ForgottenHolds(s.w, m.run, b.current, key);
    OnceInParts(b.current, b.deferred, key);
    OneMoved(s, Forgotten(s.w, m.run, b.current), m.run, Returning(b.deferred), key);
  }

  lemma OnceInParts(a: seq<string>, b: seq<string>, key: string)
    requires multiset(a + b)[key] <= 1
    ensures multiset(b)[key] <= 1
    ensures key in b <==> key in a + b && key !in a
  {
    assert multiset(a + b) == multiset(a) + multiset(b);
    assert key in a <==> key in multiset(a);
    assert key in b <==> key in multiset(b);
  }

  /** What a run releases it holds, and the booking it takes away is its own. */
  lemma ReleasesItsOwn(s: Shared, m: Move)
    requires m.Return? && Enabled(s, m) && Coherent(s, Key(m.channel, m.recipient))
    ensures var key := Key(m.channel, m.recipient);
            && Reservations.Holds(s.w, m.run, key)
            && key in s.w.store.reservations && s.w.store.reservations[key].runID == m.run
  {
    assert Left(ControlOf(s, m.run))[0] in Left(ControlOf(s, m.run));
    assert Matches(s.w, m.run, ControlOf(s, m.run), Key(m.channel, m.recipient));
  }

  lemma ReturnKeepsCoherent(s: Shared, m: Move, key: string)
    requires Coherent(s, key) && Reservations.InTime(s.w, key) && m.Return? && Enabled(s, m)
    ensures Coherent(Next(s, m), key)
  {
    var (k, a) := (Key(m.channel, m.recipient), Reservations.GiveBack(m.run, m.channel, m.recipient));
    var left := Left(ControlOf(s, m.run));
    assert Matches(s.w, m.run, ControlOf(s, m.run), key);
    assert left == [k] + left[1..] && k in left;
    Reservations.StepKeepsOwned(s.w, a, key);
    GiveBackHolds(s.w, a, key);
    OnceInParts([k], left[1..], key);
    OneMoved(s, Reservations.Step(s.w, a), m.run, Returning(left[1..]), key);
  }

  lemma TickKeepsCoherent(s: Shared, d: nat, key: string)
    requires Coherent(s, key)
    ensures Coherent(Next(s, Tick(d)), key)
  {
    var next := Next(s, Tick(d));
    forall r ensures Matches(next.w, r, ControlOf(next, r), key) {
      assert Matches(s.w, r, ControlOf(s, r), key);
    }
  }

  lemma MoveKeepsCoherent(s: Shared, m: Move, key: string)
    requires Coherent(s, key) && Reservations.InTime(s.w, key) && Enabled(s, m)
    ensures Coherent(Next(s, m), key)
  {
    match m
    case Tick(d) => TickKeepsCoherent(s, d, key);
    case Ask(_, _, _, _) =>
      if Reservations.Succeeds(s.w, BookOf(m)) {
        BookedKeepsCoherent(s, m, key);
      } else {
        RefusedKeepsCoherent(s, m, key);
      }
    case Return(_, _, _) => ReturnKeepsCoherent(s, m, key);
  }

  function After(s: Shared, moves: seq<Move>): Option<Shared>
    decreases |moves|
  {
    if moves == [] then Some(s)
    else if !Enabled(s, moves[0]) then None
    else After(Next(s, moves[0]), moves[1..])
  }

  /** No holder of the recipient is ever late along the moves. */
  ghost predicate NeverLate(s: Shared, moves: seq<Move>, key: string)
    decreases |moves|
  {
    && Reservations.InTime(s.w, key)
    && (moves != [] && Enabled(s, moves[0]) ==> NeverLate(Next(s, moves[0]), moves[1..], key))
  }

  /** Any number of runs, interleaved in any way on one store: while no holder of the recipient is
      late, it is held by exactly the run that owes it, booked in that run's name. */
  lemma {:induction false} RunsStayCoherent(s: Shared, moves: seq<Move>, key: string)
    requires Coherent(s, key) && NeverLate(s, moves, key) && After(s, moves).Some?
    ensures Coherent(After(s, moves).value, key) && Reservations.InTime(After(s, moves).value.w, key)
    decreases |moves|
  {
    if moves != [] {
      MoveKeepsCoherent(s, moves[0], key);
      RunsStayCoherent(Next(s, moves[0]), moves[1..], key);
    }
  }

  /** Exclusion among automata: wherever the interleaving stands, if some run holds the recipient then
      every run that asks for it is refused, and only the holder can release it. */
  lemma RunsExclude(moves: seq<Move>, holder: string, m: Move)
    requires !m.Tick? && After(EMPTY, moves).Some? && Enabled(After(EMPTY, moves).value, m)
    requires NeverLate(EMPTY, moves, Key(m.channel, m.recipient))
    requires Reservations.Holds(After(EMPTY, moves).value.w, holder, Key(m.channel, m.recipient))
    ensures m.Ask? ==> CallOf(After(EMPTY, moves).value, m).BookRefused?
    ensures m.Return? ==> m.run == holder
  {
    var key := Key(m.channel, m.recipient);
    var s := After(EMPTY, moves).value;
    RunsStayCoherent(EMPTY, moves, key);
    if m.Ask? {
      Reservations.BookedWhenLate(s.w, BookOf(m), holder);
    } else {
      ReleasesItsOwn(s, m);
      Reservations.OneHolder(s.w, m.run, holder, key);
    }
  }

  // ---- Runs of the engine on one store ----

  /** The reservation calls of a record. */
  function Reserving(calls: seq<Call>): seq<Call> {
    if calls == [] then []
    else
      var c := calls[|calls| - 1];
      Reserving(calls[..|calls| - 1]) + if ReservationLaws.Inner(c) then [] else [c]
  }

  /** The calls begin the reservation calls of some run of the engine under this id. */
  ghost predicate FromEngine(r: string, calls: seq<Call>) {
    exists def, script, vars, store :: calls <= Reserving(Execute(def, script, r, vars, store).calls)
  }

  lemma {:induction false} ReservingFollows(calls: seq<Call>)
    ensures FollowAll(BEGIN, Reserving(calls)) == FollowAll(BEGIN, calls)
  {
    if calls != [] {
      var n := |calls| - 1;
      ReservingFollows(calls[..n]);
      if !ReservationLaws.Inner(calls[n]) {
        assert (Reserving(calls[..n]) + [calls[n]])[..|Reserving(calls[..n])|] == Reserving(calls[..n]);
      } else {
        assert Reserving(calls[..n]) + [] == Reserving(calls[..n]);
      }
    }
  }

  lemma {:induction false} PrefixFollows(c: Control, calls: seq<Call>, n: nat)
    requires n <= |calls| && FollowAll(c, calls).Some?
    ensures FollowAll(c, calls[..n]).Some?
    decreases |calls|
  {
    if n == |calls| {
      assert calls[..n] == calls;
    } else {
      PrefixFollows(c, calls[..|calls| - 1], n);
      assert calls[..|calls| - 1][..n] == calls[..n];
    }
  }

  lemma EngineFollows(r: string, calls: seq<Call>)
    requires FromEngine(r, calls)
    ensures FollowAll(BEGIN, calls).Some?
  {
    var def, script, vars, store :| calls <= Reserving(Execute(def, script, r, vars, store).calls);
    var record := Execute(def, script, r, vars, store).calls;
    RunsFollow(def, script, r, vars, store);
    ReservingFollows(record);
    PrefixFollows(BEGIN, Reserving(record), |calls|);
    assert Reserving(record)[..|calls|] == calls;
  }

  /** The calls that a run makes along the moves, with the answers of the shared store. */
  function CallsOf(s: Shared, moves: seq<Move>, r: string): seq<Call>
    decreases |moves|
  {
    if moves == [] then []
    else
      var m := moves[0];
      (if m.Tick? || m.run != r then [] else [CallOf(s, m)])
      + (if Enabled(s, m) then CallsOf(Next(s, m), moves[1..], r) else [])
  }

  /** past tells what each run has called before; all it calls is what its automaton makes. */
  ghost predicate AllFollow(s: Shared, moves: seq<Move>, past: string -> seq<Call>) {
    forall r ::
      && FollowAll(BEGIN, past(r)) == Some(ControlOf(s, r))
      && FollowAll(BEGIN, past(r) + CallsOf(s, moves, r)).Some?
  }

  lemma FirstEnabled(s: Shared, moves: seq<Move>, past: string -> seq<Call>)
    requires AllFollow(s, moves, past) && moves != [] && !moves[0].Tick?
    ensures Enabled(s, moves[0])
  {
    var m := moves[0];
    var calls := past(m.run) + CallsOf(s, moves, m.run);
    var n := |past(m.run)| + 1;
    PrefixFollows(BEGIN, calls, n);
    assert calls[..n] == past(m.run) + [CallOf(s, m)];
    assert (past(m.run) + [CallOf(s, m)])[..n - 1] == past(m.run);
  }

  /** What each run has called after one more move. */
  function CalledSoFar(s: Shared, m: Move, past: string -> seq<Call>): string -> seq<Call> {
    (r: string) => if !m.Tick? && m.run == r then past(r) + [CallOf(s, m)] else past(r)
  }

  lemma FollowMore(past: seq<Call>, c: Call)
    requires FollowAll(BEGIN, past).Some?
    ensures FollowAll(BEGIN, past + [c]) == Follow(FollowAll(BEGIN, past).value, c)
  {
    assert (past + [c])[..|past|] == past;
  }

  lemma NextControl(s: Shared, m: Move, r: string)
    requires Enabled(s, m)
    ensures if !m.Tick? && m.run == r then Some(ControlOf(Next(s, m), r)) == Follow(ControlOf(s, r), CallOf(s, m))
            else ControlOf(Next(s, m), r) == ControlOf(s, r)
  {
  }

  lemma CallsNow(s: Shared, moves: seq<Move>, past: string -> seq<Call>, r: string)
    requires moves != [] && Enabled(s, moves[0])
    ensures CalledSoFar(s, moves[0], past)(r) + CallsOf(Next(s, moves[0]), moves[1..], r) ==
            past(r) + CallsOf(s, moves, r)
  {
    var m := moves[0];
    var rest := CallsOf(Next(s, m), moves[1..], r);
    if !m.Tick? && m.run == r {
      assert (past(r) + [CallOf(s, m)]) + rest == past(r) + ([CallOf(s, m)] + rest);
    } else {
      assert [] + rest == rest;
    }
  }

  lemma FollowOn(s: Shared, moves: seq<Move>, past: string -> seq<Call>, r: string)
    requires AllFollow(s, moves, past) && moves != [] && Enabled(s, moves[0])
    ensures var (next, now) := (Next(s, moves[0]), CalledSoFar(s, moves[0], past)(r));
            && FollowAll(BEGIN, now) == Some(ControlOf(next, r))
            && FollowAll(BEGIN, now + CallsOf(next, moves[1..], r)).Some?
  {
    var m := moves[0];
    CallsNow(s, moves, past, r);
    NextControl(s, m, r);
    if !m.Tick? && m.run == r { FollowMore(past(r), CallOf(s, m)); }
  }

  lemma {:induction false} AllEnabled(s: Shared, moves: seq<Move>, past: string -> seq<Call>)
    requires AllFollow(s, moves, past)
    ensures After(s, moves).Some?
    decreases |moves|
  {
    if moves != [] {
      if !moves[0].Tick? { FirstEnabled(s, moves, past); }
      forall r
        ensures var (next, now) := (Next(s, moves[0]), CalledSoFar(s, moves[0], past)(r));
                && FollowAll(BEGIN, now) == Some(ControlOf(next, r))
                && FollowAll(BEGIN, now + CallsOf(next, moves[1..], r)).Some?
      {
        FollowOn(s, moves, past, r);
      }
      AllEnabled(Next(s, moves[0]), moves[1..], CalledSoFar(s, moves[0], past));
    }
  }

  lemma {:induction false} LastEnabled(s: Shared, moves: seq<Move>, m: Move)
    requires After(s, moves + [m]).Some?
    ensures After(s, moves).Some? && Enabled(After(s, moves).value, m)
    decreases |moves|
  {
    if moves == [] {
      assert (moves + [m])[0] == m;
    } else {
      assert (moves + [m])[0] == moves[0] && (moves + [m])[1..] == moves[1..] + [m];
      LastEnabled(Next(s, moves[0]), moves[1..], m);
    }
  }

  /** Mutual exclusion of runs of the engine. Any number of them, interleaved call by call on one store
      that answers them all: as long as what each run calls, given the answers it gets, begins a
      record of the engine, and no holder of the recipient is late, then while a run holds it every
      other booking of it is refused, and the only run that can release it is the holder. */
  lemma EnginesExclude(moves: seq<Move>, m: Move, holder: string)
    requires !m.Tick? && NeverLate(EMPTY, moves, Key(m.channel, m.recipient))
    requires forall r | CallsOf(EMPTY, moves + [m], r) != [] :: FromEngine(r, CallsOf(EMPTY, moves + [m], r))
    ensures After(EMPTY, moves).Some?
    ensures var s := After(EMPTY, moves).value;
            Reservations.Holds(s.w, holder, Key(m.channel, m.recipient)) ==>
              (m.Ask? ==> CallOf(s, m).BookRefused?) && (m.Return? ==> m.run == holder)
  {
    var all := moves + [m];
    forall r ensures FollowAll(BEGIN, [] + CallsOf(EMPTY, all, r)).Some? {
      assert [] + CallsOf(EMPTY, all, r) == CallsOf(EMPTY, all, r);
      if CallsOf(EMPTY, all, r) != [] { EngineFollows(r, CallsOf(EMPTY, all, r)); }
    }
    AllEnabled(EMPTY, all, r => []);
    LastEnabled(EMPTY, moves, m);
    if Reservations.Holds(After(EMPTY, moves).value.w, holder, Key(m.channel, m.recipient)) {
      RunsExclude(moves, holder, m);
    }
  }
}
