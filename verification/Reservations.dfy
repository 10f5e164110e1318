/** Recipient reservations: any number of runs interleaved on one memory store. Release never
    checks the owner, and still excludes while every run ends within the reservation TTL. */
module Reservations {
  import opened Stores

  /** held[r][key] is when run r made the reservation it has not yet given back. */
  datatype World = World(store: Mem, now: nat, held: map<string, map<string, nat>>)

  datatype Action =
    | Tick(d: nat)
    | Book(run: string, channel: string, recipient: string)
    | GiveBack(run: string, channel: string, recipient: string)
    | Forget(run: string, key: string)

  predicate Holds(w: World, r: string, key: string) {
    r in w.held && key in w.held[r]
  }

  /** A run releases a recipient only while it holds it; after a failed reservation it ends without
      releasing. */
  predicate Allowed(w: World, a: Action, key: string) {
    match a
    case GiveBack(r, c, p) => Key(c, p) == key ==> Holds(w, r, key)
    case Forget(r, k) => k == key ==> Holds(w, r, key)
    case _ => true
  }

  function HeldBy(w: World, r: string): map<string, nat> {
    if r in w.held then w.held[r] else map[]
  }

  /** One atomic step. Book is store.Reserve, GiveBack is store.Release. */
  function Step(w: World, a: Action): World {
    match a
    case Tick(d) => w.(now := w.now + d)
    case Book(r, c, p) =>
      var (st, reply) := MemReserve(w.store, c, p, r, w.now);
      if reply == Reserved then World(st, w.now, w.held[r := HeldBy(w, r)[Key(c, p) := w.now]]) else w
    case GiveBack(r, c, p) => World(MemRelease(w.store, c, p), w.now, w.held[r := HeldBy(w, r) - {Key(c, p)}])
    case Forget(r, k) => w.(held := w.held[r := HeldBy(w, r) - {k}])
  }

  predicate Succeeds(w: World, a: Action) {
    a.Book? && MemReserve(w.store, a.channel, a.recipient, a.run, w.now).1 == Reserved
  }

  /** The run gives the recipient up. */
  predicate GivesUp(a: Action, r: string, key: string) {
    match a
    case GiveBack(r', c, p) => r' == r && Key(c, p) == key
    case Forget(r', k) => r' == r && k == key
    case _ => false
  }

  /** No holder of the recipient is late: its reservation is younger than the TTL. */
  ghost predicate InTime(w: World, key: string) {
    forall r | Holds(w, r, key) :: w.now < w.held[r][key] + RESERVATION_TTL
  }

  /** Who holds the recipient has it booked in its own name, since the time it remembers. */
  ghost predicate Owned(w: World, key: string) {
    forall r | Holds(w, r, key) ::
      key in w.store.reservations && w.store.reservations[key] == MemReservation(r, w.held[r][key] + RESERVATION_TTL)
  }

  lemma StepKeepsOwned(w: World, a: Action, key: string)
    requires Owned(w, key) && InTime(w, key) && Allowed(w, a, key)
    ensures Owned(Step(w, a), key)
  {
  }

  /** No two runs hold the same recipient. */
  lemma OneHolder(w: World, r: string, r': string, key: string)
    requires Owned(w, key) && Holds(w, r, key) && Holds(w, r', key)
    ensures r == r'
  {
  }

  /** A recipient somebody holds can be booked exactly when its holder is late. */
  lemma BookedWhenLate(w: World, a: Action, holder: string)
    requires a.Book? && Owned(w, Key(a.channel, a.recipient)) && Holds(w, holder, Key(a.channel, a.recipient))
    ensures Succeeds(w, a) <==> w.now >= w.held[holder][Key(a.channel, a.recipient)] + RESERVATION_TTL
  {
  }

  // ---- Whole interleavings ----

  function After(w: World, actions: seq<Action>): World
    decreases |actions|
  {
    if actions == [] then w else After(Step(w, actions[0]), actions[1..])
  }

  /** As far as this recipient goes, every action is allowed where it happens, and no holder is
      ever late. Of other recipients nothing is asked. */
  ghost predicate Legal(w: World, actions: seq<Action>, key: string)
    decreases |actions|
  {
    InTime(w, key) && (actions != [] ==> Allowed(w, actions[0], key) && Legal(Step(w, actions[0]), actions[1..], key))
  }

  lemma {:induction false} LegalSplit(w: World, a: seq<Action>, b: seq<Action>, key: string)
    requires Legal(w, a + b, key) && Owned(w, key)
    ensures Legal(w, a, key) && Owned(After(w, a), key) && Legal(After(w, a), b, key)
    decreases |a|
  {
    if a == [] {
      assert a + b == b;
    } else {
      assert (a + b)[0] == a[0] && (a + b)[1..] == a[1..] + b;
      StepKeepsOwned(w, a[0], key);
      LegalSplit(Step(w, a[0]), a[1..], b, key);
    }
  }

  /** The run still holds the recipient until one of its own actions gives it up. */
  lemma {:induction false} StillHeld(w: World, actions: seq<Action>, r: string, key: string)
    requires Legal(w, actions, key) && Owned(w, key) && Holds(w, r, key)
    requires forall a | a in actions :: !GivesUp(a, r, key)
    ensures Holds(After(w, actions), r, key)
    decreases |actions|
  {
    if actions != [] {
      StepKeepsOwned(w, actions[0], key);
      assert actions[0] in actions;
      StillHeld(Step(w, actions[0]), actions[1..], r, key);
    }
  }

  const START := World(EMPTY_MEM, 0, map[])

  /** Mutual exclusion, in every interleaving past + [book] + between + [other] that is legal for
      the recipient: after a run booked it and until it gives it up, no booking of it by anybody
      succeeds. */
  lemma MutualExclusion(past: seq<Action>, book: Action, between: seq<Action>, other: Action, key: string)
    requires Legal(START, past + ([book] + (between + [other])), key) && book.Book? && other.Book?
    requires Key(book.channel, book.recipient) == key == Key(other.channel, other.recipient)
    requires Succeeds(After(START, past), book)
    requires forall a | a in between :: !GivesUp(a, book.run, key)
    ensures !Succeeds(After(Step(After(START, past), book), between), other)
  {
    var w := After(START, past);
    LegalSplit(START, past, [book] + (between + [other]), key);
    var w1 := Step(w, book);
    StepKeepsOwned(w, book, key);
    assert ([book] + (between + [other]))[1..] == between + [other];
    LegalSplit(w1, between, [other], key);
    StillHeld(w1, between, book.run, key);
    BookedWhenLate(After(w1, between), other, book.run);
  }

  /** Release checks no owner: once a run is late another books its recipient, the late release
      frees that booking, and a third run books it while the second still holds it. */
  lemma LateReleaseBreaksExclusion(c: string, p: string)
    ensures var trace := [Book("a", c, p), Tick(RESERVATION_TTL), Book("b", c, p), GiveBack("a", c, p)];
            var w := After(START, trace);
            && Holds(w, "b", Key(c, p))
            && w.now < w.held["b"][Key(c, p)] + RESERVATION_TTL
            && Succeeds(w, Book("c", c, p))
  {
    var trace := [Book("a", c, p), Tick(RESERVATION_TTL), Book("b", c, p), GiveBack("a", c, p)];
    var k := Key(c, p);
    var w1 := Step(START, trace[0]);
    var w2 := Step(w1, trace[1]);
    var w3 := Step(w2, trace[2]);
    var w4 := Step(w3, trace[3]);
    assert w3.held["b"][k] == RESERVATION_TTL == w4.held["b"][k];
    assert trace[1..][1..][1..][1..] == [];
    assert After(w4, []) == w4 && After(w3, trace[3..]) == w4;
    assert trace[2..][1..] == trace[3..] && After(w2, trace[2..]) == w4;
    assert trace[1..][1..] == trace[2..] && After(w1, trace[1..]) == w4;
  }
}
