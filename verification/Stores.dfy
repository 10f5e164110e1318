/** The two message stores: the in-memory one with lazy expiry and concatenated keys, and the
    PostgreSQL one with eager purging and pair keys. Each operation is one atomic step at one
    reading of the clock. */
module Stores {
  import opened Text

  /** Nanoseconds; one hour. */
  const RESERVATION_TTL: nat := 3_600_000_000_000

  /** receivedAt 0 is the zero time; body stands for headers, fields and raw bytes. */
  datatype Message = Message(runID: string, receiverType: string, receivedAt: nat, body: nat)

  datatype Reply = Reserved | Refused(holder: string)

  function Key(a: string, b: string): string {
    a + ":" + b
  }

  predicate ColonFree(s: string) {
    ':' !in s
  }

  // ---- MemoryStore ----

  datatype MemEntry = MemEntry(payload: Message, expiresAt: nat)
  datatype MemReservation = MemReservation(runID: string, expiresAt: nat)
  type Table = map<string, MemReservation>
  datatype Mem = Mem(messages: map<string, MemEntry>, reservations: Table)

  const EMPTY_MEM := Mem(map[], map[])

  function MemDeposit(st: Mem, msg: Message, ttl: nat, now: nat): Mem {
    st.(messages := st.messages[Key(msg.runID, msg.receiverType) := MemEntry(msg, now + ttl)])
  }

  function MemClaim(st: Mem, runID: string, receiverType: string, now: nat): Option<Message> {
    var key := Key(runID, receiverType);
    if key in st.messages && now <= st.messages[key].expiresAt then Some(st.messages[key].payload) else None
  }

  function MemReserve(st: Mem, channel: string, recipient: string, runID: string, now: nat): (Mem, Reply) {
    var key := Key(channel, recipient);
    if key in st.reservations && now < st.reservations[key].expiresAt then
      (st, Refused(st.reservations[key].runID))
    else
      (st.(reservations := st.reservations[key := MemReservation(runID, now + RESERVATION_TTL)]), Reserved)
  }

  function MemRelease(st: Mem, channel: string, recipient: string): Mem {
    st.(reservations := st.reservations - {Key(channel, recipient)})
  }

  function MemDelete(st: Mem, runID: string, receiverType: string): Mem {
    st.(messages := st.messages - {Key(runID, receiverType)})
  }

  class MemoryStore {
    var messages: map<string, MemEntry>
    var reservations: Table
    const ttl: nat

    constructor (ttl: nat)
      ensures View() == EMPTY_MEM && this.ttl == ttl
    {
      messages := map[];
      reservations := map[];
      this.ttl := ttl;
    }

    function View(): Mem
      reads this
    {
      Mem(messages, reservations)
    }

    method Deposit(msg: Message, now: nat)
      modifies this
      ensures View() == MemDeposit(old(View()), msg, ttl, now)
    {
      var key := msg.runID + ":" + msg.receiverType;
      messages := messages[key := MemEntry(msg, now + ttl)];
    }

    method Claim(runID: string, receiverType: string, now: nat) returns (msg: Option<Message>)
      ensures msg == MemClaim(View(), runID, receiverType, now)
    {
      var key := runID + ":" + receiverType;
      if key !in messages || messages[key].expiresAt < now { return None; }
      return Some(messages[key].payload);
    }

    method Reserve(channel: string, recipient: string, runID: string, now: nat) returns (r: Reply)
      modifies this
      ensures (View(), r) == MemReserve(old(View()), channel, recipient, runID, now)
    {
      var key := channel + ":" + recipient;
      if key in reservations && reservations[key].expiresAt > now { return Refused(reservations[key].runID); }
      reservations := reservations[key := MemReservation(runID, now + RESERVATION_TTL)];
      return Reserved;
    }

    method Release(channel: string, recipient: string)
      modifies this
      ensures View() == MemRelease(old(View()), channel, recipient)
    {
      reservations := reservations - {channel + ":" + recipient};
    }

    method Delete(runID: string, receiverType: string)
      modifies this
      ensures View() == MemDelete(old(View()), runID, receiverType)
    {
      messages := messages - {runID + ":" + receiverType};
    }
  }

  // ---- PostgresStore ----

  datatype Tables = Tables(messages: map<(string, string), MemEntry>,
                           reservations: map<(string, string), MemReservation>)

  const EMPTY_TABLES := Tables(map[], map[])

  function Purge(st: Tables, now: nat): Tables {
    Tables(map k | k in st.messages && st.messages[k].expiresAt > now :: st.messages[k],
           map k | k in st.reservations && st.reservations[k].expiresAt > now :: st.reservations[k])
  }

  function PgDeposit(st: Tables, msg: Message, ttl: nat, now: nat): Tables {
    var st := Purge(st, now);
    st.(messages := st.messages[(msg.runID, msg.receiverType) := MemEntry(msg, now + ttl)])
  }

  function PgClaim(st: Tables, runID: string, receiverType: string, now: nat): (Tables, Option<Message>) {
    var st := Purge(st, now);
    (st, if (runID, receiverType) in st.messages then Some(st.messages[(runID, receiverType)].payload) else None)
  }

  function PgReserve(st: Tables, channel: string, recipient: string, runID: string, now: nat): (Tables, Reply) {
    var st := Purge(st, now);
    var k := (channel, recipient);
    if k in st.reservations then (st, Refused(st.reservations[k].runID))
    else (st.(reservations := st.reservations[k := MemReservation(runID, now + RESERVATION_TTL)]), Reserved)
  }

  function PgRelease(st: Tables, channel: string, recipient: string): Tables {
    st.(reservations := st.reservations - {(channel, recipient)})
  }

  function PgDelete(st: Tables, runID: string, receiverType: string): Tables {
    st.(messages := st.messages - {(runID, receiverType)})
  }

  class PostgresStore {
    var messages: map<(string, string), MemEntry>
    var reservations: map<(string, string), MemReservation>
    const ttl: nat

    constructor (ttl: nat)
      ensures View() == EMPTY_TABLES && this.ttl == ttl
    {
      messages := map[];
      reservations := map[];
      this.ttl := ttl;
    }

    function View(): Tables
      reads this
    {
      Tables(messages, reservations)
    }

    /** Two DELETE statements, on rows whose expires_at is not after now(). */
    method PurgeExpired(now: nat)
      modifies this
      ensures View() == Purge(old(View()), now)
    {
      messages := map k | k in messages && !(messages[k].expiresAt <= now) :: messages[k];
      reservations := map k | k in reservations && !(reservations[k].expiresAt <= now) :: reservations[k];
    }

    method Deposit(msg: Message, now: nat)
      modifies this
      ensures View() == PgDeposit(old(View()), msg, ttl, now)
    {
      PurgeExpired(now);
      messages := messages[(msg.runID, msg.receiverType) := MemEntry(msg, now + ttl)];
    }

    /** The SELECT repeats the expiry test after the purge. */
    method Claim(runID: string, receiverType: string, now: nat) returns (msg: Option<Message>)
      modifies this
      ensures (View(), msg) == PgClaim(old(View()), runID, receiverType, now)
    {
      PurgeExpired(now);
      var k := (runID, receiverType);
      if k !in messages || !(messages[k].expiresAt > now) { return None; }
      return Some(messages[k].payload);
    }

    /** INSERT ... ON CONFLICT DO NOTHING, and a SELECT of the holder when no row was affected. */
    method Reserve(channel: string, recipient: string, runID: string, now: nat) returns (r: Reply)
      modifies this
      ensures (View(), r) == PgReserve(old(View()), channel, recipient, runID, now)
    {
      PurgeExpired(now);
      var k := (channel, recipient);
      var affected := 0;
      if k !in reservations {
        reservations := reservations[k := MemReservation(runID, now + RESERVATION_TTL)];
        affected := 1;
      }
      if affected == 0 { return Refused(reservations[k].runID); }
      return Reserved;
    }

    method Release(channel: string, recipient: string)
      modifies this
      ensures View() == PgRelease(old(View()), channel, recipient)
    {
      reservations := reservations - {(channel, recipient)};
    }

    method Delete(runID: string, receiverType: string)
      modifies this
      ensures View() == PgDelete(old(View()), runID, receiverType)
    {
      messages := messages - {(runID, receiverType)};
    }
  }

  /** In either store a booking refuses every other for an hour, naming the run that has it. */
  lemma BookedForAnHour(mem: Mem, tables: Tables, channel: string, recipient: string, a: string, b: string, now: nat,
                        later: nat)
    requires now <= later
    ensures MemReserve(mem, channel, recipient, a, now).1 == Reserved ==>
              MemReserve(MemReserve(mem, channel, recipient, a, now).0, channel, recipient, b, later).1 ==
              if later < now + 60 * 60 * 1_000_000_000 then Refused(a) else Reserved
    ensures PgReserve(tables, channel, recipient, a, now).1 == Reserved ==>
              PgReserve(PgReserve(tables, channel, recipient, a, now).0, channel, recipient, b, later).1 ==
              if later < now + 60 * 60 * 1_000_000_000 then Refused(a) else Reserved
  {
  }

  // ---- Concatenated keys ----

  lemma KeySplits(a: string, b: string, i: nat)
    requires i < |Key(a, b)|
    ensures Key(a, b)[i] == if i < |a| then a[i] else if i == |a| then ':' else b[i - |a| - 1]
  {
  }

  lemma SameParts(a: string, b: string, a': string, b': string)
    requires Key(a, b) == Key(a', b') && |a| == |a'|
    ensures a == a' && b == b'
  {
    assert a == Key(a, b)[..|a|] && a' == Key(a', b')[..|a'|];
    assert b == Key(a, b)[|a| + 1..] && b' == Key(a', b')[|a'| + 1..];
  }

  /** The separator is at the same place when the parts before it, or those after it, have no colon. */
  lemma Separators(a: string, b: string, a': string, b': string)
    requires Key(a, b) == Key(a', b') && ((ColonFree(a) && ColonFree(a')) || (ColonFree(b) && ColonFree(b')))
    ensures a == a' && b == b'
  {
    KeySplits(a, b, |a|);
    KeySplits(a', b', |a'|);
    KeySplits(a, b, |a'|);
    KeySplits(a', b', |a|);
    SameParts(a, b, a', b');
  }

  /** A run id may hold colons: the last colon of runID:type is the separator. */
  lemma KeyInjectiveByType(a: string, b: string, a': string, b': string)
    requires ColonFree(b) && ColonFree(b') && Key(a, b) == Key(a', b')
    ensures a == a' && b == b'
  {
    Separators(a, b, a', b');
  }

  /** A recipient may hold colons: the first colon of channel:recipient is the separator. */
  lemma KeyInjectiveByChannel(a: string, b: string, a': string, b': string)
    requires ColonFree(a) && ColonFree(a') && Key(a, b) == Key(a', b')
    ensures a == a' && b == b'
  {
    Separators(a, b, a', b');
  }

  lemma TypesInjective(r: string, t: string)
    requires ColonFree(t)
    ensures forall r', t' | ColonFree(t') && Key(r', t') == Key(r, t) :: r' == r && t' == t
  {
    forall r', t' | ColonFree(t') && Key(r', t') == Key(r, t) ensures r' == r && t' == t {
      KeyInjectiveByType(r', t', r, t);
    }
  }
}
