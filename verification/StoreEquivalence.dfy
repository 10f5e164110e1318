/** Over every trace the two stores answer alike, except for a claim at the very instant a
    message expires. */
module StoreEquivalence {
  import opened Text
  import opened Stores

  datatype Op =
    | Deposit(msg: Message)
    | Claim(runID: string, receiverType: string)
    | Reserve(channel: string, recipient: string, holder: string)
    | Release(channel: string, recipient: string)
    | Delete(runID: string, receiverType: string)

  datatype Answer = Done | Found(msg: Option<Message>) | Booked(reply: Reply)

  datatype Event = Event(op: Op, now: nat)

  type Pair = (string, string)

  /** The pairs in use: those of messages, and those of recipients. */
  datatype Names = Names(messages: set<Pair>, recipients: set<Pair>)

  /** The operation names its message or its recipient by one of these pairs. */
  predicate Uses(op: Op, names: Names) {
    match op
    case Deposit(m) => (m.runID, m.receiverType) in names.messages
    case Claim(r, t) => (r, t) in names.messages
    case Delete(r, t) => (r, t) in names.messages
    case Reserve(c, p, _) => (c, p) in names.recipients
    case Release(c, p) => (c, p) in names.recipients
  }

  /** Different pairs have different concatenated keys. */
  ghost predicate KeysDiffer(pairs: set<Pair>) {
    forall p, q | p in pairs && q in pairs && Key(p.0, p.1) == Key(q.0, q.1) :: p == q
  }

  function MemStep(st: Mem, op: Op, ttl: nat, now: nat): (Mem, Answer) {
    match op
    case Deposit(m) => (MemDeposit(st, m, ttl, now), Done)
    case Claim(r, t) => (st, Found(MemClaim(st, r, t, now)))
    case Reserve(c, p, r) => var (st', reply) := MemReserve(st, c, p, r, now); (st', Booked(reply))
    case Release(c, p) => (MemRelease(st, c, p), Done)
    case Delete(r, t) => (MemDelete(st, r, t), Done)
  }

  function PgStep(st: Tables, op: Op, ttl: nat, now: nat): (Tables, Answer) {
    match op
    case Deposit(m) => (PgDeposit(st, m, ttl, now), Done)
    case Claim(r, t) => var (st', m) := PgClaim(st, r, t, now); (st', Found(m))
    case Reserve(c, p, r) => var (st', reply) := PgReserve(st, c, p, r, now); (st', Booked(reply))
    case Release(c, p) => (PgRelease(st, c, p), Done)
    case Delete(r, t) => (PgDelete(st, r, t), Done)
  }

  /** The instant at which the in-memory store still returns a message. */
  predicate AtExpiry(st: Mem, op: Op, now: nat) {
    op.Claim? && var k := Key(op.runID, op.receiverType); k in st.messages && st.messages[k].expiresAt == now
  }

  const MessageEnd := (e: MemEntry) => e.expiresAt
  const ReservationEnd := (e: MemReservation) => e.expiresAt

  /** The rows are what memory holds under their concatenated keys, minus some that expired. */
  ghost predicate SameEntries<E>(mem: map<string, E>, rows: map<Pair, E>, pairs: set<Pair>, ends: E -> nat, now: nat) {
    && (forall p <- rows :: p in pairs && Key(p.0, p.1) in mem && mem[Key(p.0, p.1)] == rows[p])
    && (forall p <- pairs | Key(p.0, p.1) in mem :: p in rows || ends(mem[Key(p.0, p.1)]) <= now)
  }

  lemma EntryPut<E>(mem: map<string, E>, rows: map<Pair, E>, pairs: set<Pair>, ends: E -> nat, now: nat, p: Pair, e: E)
    requires SameEntries(mem, rows, pairs, ends, now) && KeysDiffer(pairs) && p in pairs
    ensures SameEntries(mem[Key(p.0, p.1) := e], rows[p := e], pairs, ends, now)
    ensures SameEntries(mem - {Key(p.0, p.1)}, rows - {p}, pairs, ends, now)
  {
  }

  /** With a TTL of zero every message is past its time. */
  ghost predicate AllExpired(mem: map<string, MemEntry>, rows: map<Pair, MemEntry>, now: nat) {
    (forall k <- mem :: mem[k].expiresAt <= now) && (forall p <- rows :: rows[p].expiresAt <= now)
  }

  /** No two pairs share a key; messages that expire at once may. */
  ghost predicate Apart(names: Names, ttl: nat) {
    (ttl == 0 || KeysDiffer(names.messages)) && KeysDiffer(names.recipients)
  }

  ghost predicate MessagesAgree(mem: map<string, MemEntry>, rows: map<Pair, MemEntry>, pairs: set<Pair>, ttl: nat,
                                now: nat) {
    if ttl == 0 then AllExpired(mem, rows, now) else SameEntries(mem, rows, pairs, MessageEnd, now)
  }

  ghost predicate Related(mem: Mem, pg: Tables, names: Names, ttl: nat, now: nat) {
    && MessagesAgree(mem.messages, pg.messages, names.messages, ttl, now)
    && SameEntries(mem.reservations, pg.reservations, names.recipients, ReservationEnd, now)
  }

  lemma PurgeKeepsRelated(mem: Mem, pg: Tables, names: Names, ttl: nat, now: nat, later: nat)
    requires Related(mem, pg, names, ttl, now) && now <= later
    ensures Related(mem, Purge(pg, later), names, ttl, later) && Related(mem, pg, names, ttl, later)
  {
  }

  lemma MessagePut(mem: map<string, MemEntry>, rows: map<Pair, MemEntry>, pairs: set<Pair>, ttl: nat, now: nat,
                   p: Pair, e: MemEntry)
    requires MessagesAgree(mem, rows, pairs, ttl, now) && (ttl == 0 || KeysDiffer(pairs)) && p in pairs
    requires e.expiresAt == now + ttl
    ensures MessagesAgree(mem[Key(p.0, p.1) := e], rows[p := e], pairs, ttl, now)
    ensures MessagesAgree(mem - {Key(p.0, p.1)}, rows - {p}, pairs, ttl, now)
  {
    if ttl > 0 { EntryPut(mem, rows, pairs, MessageEnd, now, p, e); }
  }

  /** What the tables answer when memory answers a. */
  function TablesSay(a: Answer, mem: Mem, op: Op, now: nat): Answer {
    if AtExpiry(mem, op, now) then Found(None) else a
  }

  /** The stores stay related, and answer alike except at the expiry instant. */
  ghost predicate Agreeing(mem: Mem, pg: Tables, names: Names, op: Op, ttl: nat, now: nat) {
    var (mem', a) := MemStep(mem, op, ttl, now);
    var (pg', b) := PgStep(pg, op, ttl, now);
    && Related(mem', pg', names, ttl, now)
    && b == TablesSay(a, mem, op, now)
    && (AtExpiry(mem, op, now) ==> a.Found? && a.msg.Some?)
  }

  lemma DepositAgrees(mem: Mem, pg: Tables, names: Names, m: Message, ttl: nat, now: nat)
    requires Related(mem, Purge(pg, now), names, ttl, now) && Related(mem, pg, names, ttl, now) && Apart(names, ttl)
    requires (m.runID, m.receiverType) in names.messages
    ensures Agreeing(mem, pg, names, Deposit(m), ttl, now)
  {
    var p: Pair := (m.runID, m.receiverType);
    MessagePut(mem.messages, Purge(pg, now).messages, names.messages, ttl, now, p, MemEntry(m, now + ttl));
  }

  lemma ClaimAgrees(mem: Mem, pg: Tables, names: Names, r: string, t: string, ttl: nat, now: nat)
    requires Related(mem, Purge(pg, now), names, ttl, now) && Related(mem, pg, names, ttl, now) && Apart(names, ttl)
    requires (r, t) in names.messages
    ensures Agreeing(mem, pg, names, Claim(r, t), ttl, now)
  {
    var p: Pair := (r, t);
    assert Key(p.0, p.1) == Key(r, t);
  }

  /** A row stands exactly while memory would refuse. */
  lemma SameHolder(mem: map<string, MemReservation>, rows: map<Pair, MemReservation>, pairs: set<Pair>, now: nat,
                   c: string, p: string)
    requires SameEntries(mem, rows, pairs, ReservationEnd, now) && (c, p) in pairs
    requires forall q <- rows :: rows[q].expiresAt > now
    ensures (c, p) in rows <==> Key(c, p) in mem && now < mem[Key(c, p)].expiresAt
    ensures (c, p) in rows ==> rows[(c, p)] == mem[Key(c, p)]
  {
    var q: Pair := (c, p);
    assert Key(q.0, q.1) == Key(c, p);
  }

  lemma ReserveAgrees(mem: Mem, pg: Tables, names: Names, c: string, p: string, r: string, ttl: nat, now: nat)
    requires Related(mem, Purge(pg, now), names, ttl, now) && Apart(names, ttl) && (c, p) in names.recipients
    ensures var (mem', x) := MemReserve(mem, c, p, r, now);
            var (pg', y) := PgReserve(pg, c, p, r, now);
            x == y && Related(mem', pg', names, ttl, now)
  {
    var kept := Purge(pg, now);
    SameHolder(mem.reservations, kept.reservations, names.recipients, now, c, p);
    if (c, p) !in kept.reservations {
      BookedAlike(mem, kept, names, c, p, MemReservation(r, now + RESERVATION_TTL), ttl, now);
    }
  }

  lemma BookedAlike(mem: Mem, pg: Tables, names: Names, c: string, p: string, e: MemReservation, ttl: nat, now: nat)
    requires Related(mem, pg, names, ttl, now) && Apart(names, ttl) && (c, p) in names.recipients
    ensures Related(mem.(reservations := mem.reservations[Key(c, p) := e]),
                    pg.(reservations := pg.reservations[(c, p) := e]), names, ttl, now)
  {
    EntryPut(mem.reservations, pg.reservations, names.recipients, ReservationEnd, now, (c, p), e);
  }

  lemma ReleaseAgrees(mem: Mem, pg: Tables, names: Names, c: string, p: string, ttl: nat, now: nat)
    requires Related(mem, Purge(pg, now), names, ttl, now) && Related(mem, pg, names, ttl, now) && Apart(names, ttl)
    requires (c, p) in names.recipients
    ensures Agreeing(mem, pg, names, Release(c, p), ttl, now)
  {
    EntryPut(mem.reservations, pg.reservations, names.recipients, ReservationEnd, now, (c, p), MemReservation("", 0));
  }

  lemma DeleteAgrees(mem: Mem, pg: Tables, names: Names, r: string, t: string, ttl: nat, now: nat)
    requires Related(mem, Purge(pg, now), names, ttl, now) && Related(mem, pg, names, ttl, now) && Apart(names, ttl)
    requires (r, t) in names.messages
    ensures Agreeing(mem, pg, names, Delete(r, t), ttl, now)
  {
    var e := MemEntry(Message("", "", 0, 0), now + ttl);
    MessagePut(mem.messages, pg.messages, names.messages, ttl, now, (r, t), e);
  }

  /** One operation on related stores. */
  lemma StepAgrees(mem: Mem, pg: Tables, names: Names, op: Op, ttl: nat, before: nat, now: nat)
    requires Related(mem, pg, names, ttl, before) && before <= now && Uses(op, names) && Apart(names, ttl)
    ensures Agreeing(mem, pg, names, op, ttl, now)
  {
    PurgeKeepsRelated(mem, pg, names, ttl, before, now);
    match op
    case Deposit(m) => DepositAgrees(mem, pg, names, m, ttl, now);
    case Claim(r, t) => ClaimAgrees(mem, pg, names, r, t, ttl, now);
    case Reserve(c, p, r) => ReserveAgrees(mem, pg, names, c, p, r, ttl, now);
    case Release(c, p) => ReleaseAgrees(mem, pg, names, c, p, ttl, now);
    case Delete(r, t) => DeleteAgrees(mem, pg, names, r, t, ttl, now);
  }

  function MemAfter(st: Mem, trace: seq<Event>, ttl: nat): Mem
    decreases |trace|
  {
    if trace == [] then st else MemAfter(MemStep(st, trace[0].op, ttl, trace[0].now).0, trace[1..], ttl)
  }

  function MemAnswers(st: Mem, trace: seq<Event>, ttl: nat): (r: seq<Answer>)
    ensures |r| == |trace|
    decreases |trace|
  {
    if trace == [] then []
    else
      var (st', a) := MemStep(st, trace[0].op, ttl, trace[0].now);
      [a] + MemAnswers(st', trace[1..], ttl)
  }

  function PgAnswers(st: Tables, trace: seq<Event>, ttl: nat): (r: seq<Answer>)
    ensures |r| == |trace|
    decreases |trace|
  {
    if trace == [] then []
    else
      var (st', a) := PgStep(st, trace[0].op, ttl, trace[0].now);
      [a] + PgAnswers(st', trace[1..], ttl)
  }

  /** Operations on these pairs at nondecreasing times. */
  ghost predicate Timely(trace: seq<Event>, names: Names, start: nat) {
    trace != [] ==>
      Uses(trace[0].op, names) && start <= trace[0].now
      && Timely(trace[1..], names, trace[0].now)
  }

  lemma {:induction false} TraceAgrees(mem: Mem, pg: Tables, names: Names,
                                       trace: seq<Event>, ttl: nat, start: nat, i: nat)
    requires Related(mem, pg, names, ttl, start) && Timely(trace, names, start) && i < |trace|
    requires Apart(names, ttl)
    ensures var at := MemAfter(mem, trace[..i], ttl);
            var (a, b) := (MemAnswers(mem, trace, ttl)[i], PgAnswers(pg, trace, ttl)[i]);
            && b == TablesSay(a, at, trace[i].op, trace[i].now)
            && (AtExpiry(at, trace[i].op, trace[i].now) ==> a.Found? && a.msg.Some?)
    decreases i
  {
    var e := trace[0];
    StepAgrees(mem, pg, names, e.op, ttl, start, e.now);
    if i > 0 {
      assert trace[..i][0] == e && trace[..i][1..] == trace[1..][..i - 1];
      TraceAgrees(MemStep(mem, e.op, ttl, e.now).0, PgStep(pg, e.op, ttl, e.now).0, names, trace[1..],
                  ttl, e.now, i - 1);
    }
  }

  /** At step i of the trace, from empty stores: the answers are equal, except for a claim at the
      expiry instant, where memory still returns the message and the tables do not. */
  ghost predicate Agree(trace: seq<Event>, ttl: nat, i: nat)
    requires i < |trace|
  {
    var at := MemAfter(EMPTY_MEM, trace[..i], ttl);
    var (a, b) := (MemAnswers(EMPTY_MEM, trace, ttl)[i], PgAnswers(EMPTY_TABLES, trace, ttl)[i]);
    && (a == b <==> !AtExpiry(at, trace[i].op, trace[i].now))
    && (a != b ==> a.Found? && a.msg.Some? && b == Found(None))
  }

  /** Store equivalence over every trace whose pairs have different keys. */
  lemma StoresAgree(trace: seq<Event>, names: Names, ttl: nat, i: nat)
    requires Timely(trace, names, 0) && Apart(names, ttl) && i < |trace|
    ensures Agree(trace, ttl, i)
  {
    TraceAgrees(EMPTY_MEM, EMPTY_TABLES, names, trace, ttl, 0, i);
  }

  /** Types and channels without a colon, such as webhook or imap, are enough. */
  lemma ColonFreeKeysDiffer(names: Names)
    requires (forall p <- names.messages :: ColonFree(p.1)) && forall p <- names.recipients :: ColonFree(p.0)
    ensures KeysDiffer(names.messages) && KeysDiffer(names.recipients)
  {
    var (messages, recipients) := (names.messages, names.recipients);
    forall p, q | p in messages && q in messages && Key(p.0, p.1) == Key(q.0, q.1) ensures p == q {
      KeyInjectiveByType(p.0, p.1, q.0, q.1);
    }
    forall p, q | p in recipients && q in recipients && Key(p.0, p.1) == Key(q.0, q.1) ensures p == q {
      KeyInjectiveByChannel(p.0, p.1, q.0, q.1);
    }
  }

  // ---- Colliding keys ----

  lemma SecondAnswers(e: Event, f: Event, ttl: nat)
    ensures var m := MemStep(EMPTY_MEM, e.op, ttl, e.now).0;
            var t := PgStep(EMPTY_TABLES, e.op, ttl, e.now).0;
            && MemAfter(EMPTY_MEM, [e, f][..1], ttl) == m
            && MemAnswers(EMPTY_MEM, [e, f], ttl)[1] == MemStep(m, f.op, ttl, f.now).1
            && PgAnswers(EMPTY_TABLES, [e, f], ttl)[1] == PgStep(t, f.op, ttl, f.now).1
  {
    assert [e, f][..1] == [e] && [e][1..] == [] && [e, f][1..] == [f];
  }

  /** Two recipients with one key: memory refuses the second run, the tables book it. */
  lemma CollidingRecipients(p: Pair, q: Pair, a: string, b: string, ttl: nat)
    requires Key(p.0, p.1) == Key(q.0, q.1) && p != q
    ensures var trace := [Event(Reserve(p.0, p.1, a), 0), Event(Reserve(q.0, q.1, b), 0)];
            && MemAnswers(EMPTY_MEM, trace, ttl)[1] == Booked(Refused(a))
            && PgAnswers(EMPTY_TABLES, trace, ttl)[1] == Booked(Reserved)
            && !Agree(trace, ttl, 1)
  {
    SecondAnswers(Event(Reserve(p.0, p.1, a), 0), Event(Reserve(q.0, q.1, b), 0), ttl);
    assert (p.0, p.1) == p && (q.0, q.1) == q;
  }

  /** Two messages with one key: memory gives the run of the second the message of the first. */
  lemma CollidingMessages(p: Pair, q: Pair, body: nat, ttl: nat)
    requires Key(p.0, p.1) == Key(q.0, q.1) && p != q && ttl > 0
    ensures var m := Message(p.0, p.1, 1, body);
            var trace := [Event(Deposit(m), 0), Event(Claim(q.0, q.1), 0)];
            && MemAnswers(EMPTY_MEM, trace, ttl)[1] == Found(Some(m))
            && PgAnswers(EMPTY_TABLES, trace, ttl)[1] == Found(None)
            && !Agree(trace, ttl, 1)
  {
    SecondAnswers(Event(Deposit(Message(p.0, p.1, 1, body)), 0), Event(Claim(q.0, q.1), 0), ttl);
    assert (p.0, p.1) == p && (q.0, q.1) == q;
  }

  /** Over every trace that uses these pairs only, the stores agree. */
  ghost predicate AlwaysAgree(names: Names, ttl: nat) {
    forall trace, i: nat | Timely(trace, names, 0) && i < |trace| :: Agree(trace, ttl, i)
  }

  /** Exactly: the stores agree over every trace on these pairs if and only if no two recipients,
      and no two messages unless they expire at once, share a concatenated key. */
  lemma AgreementExact(names: Names, ttl: nat)
    ensures AlwaysAgree(names, ttl) <==> Apart(names, ttl)
  {
    if Apart(names, ttl) {
      forall trace, i: nat | Timely(trace, names, 0) && i < |trace| ensures Agree(trace, ttl, i) {
        StoresAgree(trace, names, ttl, i);
      }
    } else if !KeysDiffer(names.recipients) {
      var p, q :| p in names.recipients && q in names.recipients && Key(p.0, p.1) == Key(q.0, q.1) && p != q;
      CollidingRecipients(p, q, "a", "b", ttl);
      TwoTimely(Event(Reserve(p.0, p.1, "a"), 0), Event(Reserve(q.0, q.1, "b"), 0), names);
    } else {
      var p, q :| p in names.messages && q in names.messages && Key(p.0, p.1) == Key(q.0, q.1) && p != q;
      CollidingMessages(p, q, 0, ttl);
      TwoTimely(Event(Deposit(Message(p.0, p.1, 1, 0)), 0), Event(Claim(q.0, q.1), 0), names);
    }
  }

  lemma TwoTimely(e: Event, f: Event, names: Names)
    requires Uses(e.op, names) && Uses(f.op, names) && e.now == f.now == 0
    ensures Timely([e, f], names, 0)
  {
    assert [e, f][1..] == [f] && [f][1..] == [];
  }
}
