/** Webhook messages from the gate to the run that claims them: every interleaving of depositors,
    the clock, other runs, and one run that claims and deletes over its successive attempts. */
module Delivery {
  import opened Text
  import opened Stores

  const WEBHOOK := "webhook"

  // ---- The gate ----

  /** A message on its way in; the gate fills its reception time in place. */
  class Inbound {
    var content: Message

    constructor (content: Message)
      ensures this.content == content
    {
      this.content := content;
    }
  }

  datatype Verdict = Stored | Rejected(reason: string)

  /** Ingest: the only way to Deposit. */
  method Ingest(msg: Inbound?, store: MemoryStore, now: nat) returns (v: Verdict)
    modifies store, if msg == null then {} else {msg}
    ensures v == Stored <==>
              msg != null && TrimSpace(old(msg.content).runID) != "" && old(msg.content).runID != "unknown"
    ensures v != Stored ==> store.View() == old(store.View()) && (msg != null ==> msg.content == old(msg.content))
    ensures v == Stored ==>
              && (old(msg.content).receivedAt != 0 ==> msg.content == old(msg.content))
              && (old(msg.content).receivedAt == 0 ==> msg.content == old(msg.content).(receivedAt := now))
              && store.View() == MemDeposit(old(store.View()), msg.content, store.ttl, now)
  {
    if msg == null { return Rejected("message is required"); }
    if TrimSpace(msg.content.runID) == "" || msg.content.runID == "unknown" { return Rejected("run_id missing"); }
    if msg.content.receivedAt == 0 {
      msg.content := msg.content.(receivedAt := now);
    }
    store.Deposit(msg.content, now);
    return Stored;
  }

  // ---- The polling receiver ----

  /** What wakes the polling loop up: the end of its context, or a tick at some time. */
  datatype Wake = Cancelled | Ticked(now: nat)

  datatype Collected = Timeout | NotStarted | Got(msg: Message)

  class WebhookReceiver {
    var runID: string
    var startedAt: nat

    constructor ()
      ensures runID == ""
    {
      runID := "";
      startedAt := 0;
    }

    method Start(runID: string, now: nat)
      modifies this
      ensures this.runID == runID && startedAt == now
    {
      this.runID := runID;
      startedAt := now;
    }

    /** The loop of Collect over the wake-ups it gets; stores[i] is what the shared store holds at
        wake-up i. The context always ends, so running out of wake-ups is a timeout. */
    method Collect(wakes: seq<Wake>, stores: seq<Mem>) returns (r: Collected)
      requires |stores| == |wakes|
      ensures r == NotStarted <==> runID == ""
      ensures r.Got? ==>
                exists i | 0 <= i < |wakes| ::
                  && Waiting(wakes, stores, runID, i) && wakes[i].Ticked?
                  && MemClaim(stores[i], runID, "webhook", wakes[i].now) == Some(r.msg)
      ensures r == Timeout ==>
                exists i | 0 <= i <= |wakes| ::
                  Waiting(wakes, stores, runID, i) && (i == |wakes| || wakes[i].Cancelled?)
    {
      if runID == "" { return NotStarted; }
      for i := 0 to |wakes|
        invariant Waiting(wakes, stores, runID, i)
      {
        match wakes[i]
        case Cancelled => return Timeout;
        case Ticked(now) =>
          var msg := MemClaim(stores[i], runID, WEBHOOK, now);
          if msg != None { return Got(msg.value); }
      }
      return Timeout;
    }
  }

  /** Every wake-up before i was a tick at which the store had nothing for the run. */
  predicate Waiting(wakes: seq<Wake>, stores: seq<Mem>, runID: string, i: nat)
    requires i <= |wakes| == |stores|
  {
    forall j | 0 <= j < i :: wakes[j].Ticked? && MemClaim(stores[j], runID, "webhook", wakes[j].now) == None
  }

  // ---- The protocol ----

  /** The deposits in order; the position in the log is the number of the deposit, and the body of
      the stored message. */
  datatype Deposited = Deposited(runID: string, receiverType: string, at: nat)

  /** A claim of a message: its number, the time, and how many deposits had been made. */
  datatype Claimed = Claimed(number: nat, at: nat, seen: nat)

  /** cut counts the deposits made before the run's latest delete. */
  datatype World = World(store: Mem, now: nat, log: seq<Deposited>, holding: bool, delivered: seq<Claimed>, cut: nat)

  const START := World(EMPTY_MEM, 0, [], false, [], 0)

  datatype Action =
    | Tick(d: nat)
    | Arrive(runID: string, receiverType: string)
    | OtherDelete(runID: string, receiverType: string)
    | Poll
    | Discard

  /** Receiver types carry no colon, and nobody else deletes this run's messages. */
  predicate Allowed(a: Action, me: string, kind: string) {
    match a
    case Arrive(_, t) => ColonFree(t)
    case OtherDelete(r, t) => ColonFree(t) && (r != me || t != kind)
    case _ => true
  }

  /** One atomic step. Poll claims unless a claimed message still has to be deleted. */
  function Step(w: World, a: Action, me: string, kind: string, ttl: nat): World {
    match a
    case Tick(d) => w.(now := w.now + d)
    case Arrive(r, t) =>
      w.(store := MemDeposit(w.store, Message(r, t, w.now, |w.log|), ttl, w.now),
         log := w.log + [Deposited(r, t, w.now)])
    case OtherDelete(r, t) => w.(store := MemDelete(w.store, r, t))
    case Poll =>
      if w.holding then w
      else (
        match MemClaim(w.store, me, kind, w.now)
        case None => w
        case Some(m) => w.(holding := true, delivered := w.delivered + [Claimed(m.body, w.now, |w.log|)]))
    case Discard => if w.holding then w.(store := MemDelete(w.store, me, kind), holding := false, cut := |w.log|) else w
  }

  function Run(w: World, actions: seq<Action>, me: string, kind: string, ttl: nat): World
    decreases |actions|
  {
    if actions == [] then w else Run(Step(w, actions[0], me, kind, ttl), actions[1..], me, kind, ttl)
  }

  ghost predicate AllAllowed(actions: seq<Action>, me: string, kind: string) {
    forall a <- actions :: Allowed(a, me, kind)
  }

  /** Deposit n is the last one for this run and type among the first `seen`. */
  ghost predicate Latest(log: seq<Deposited>, n: nat, seen: nat, r: string, t: string) {
    && n < seen <= |log| && log[n].runID == r && log[n].receiverType == t
    && forall m | n < m < seen :: log[m].runID != r || log[m].receiverType != t
  }

  ghost predicate StoreSound(w: World, ttl: nat) {
    forall r, t | ColonFree(t) && Key(r, t) in w.store.messages ::
      var e := w.store.messages[Key(r, t)];
      && Latest(w.log, e.payload.body, |w.log|, r, t)
      && e.expiresAt == w.log[e.payload.body].at + ttl
  }

  /** What the run was given: each time the latest deposit for exactly this run and type, not
      expired, with strictly increasing numbers. */
  ghost predicate InOrder(w: World, me: string, kind: string, ttl: nat) {
    && (forall j | 0 <= j < |w.delivered| ::
          var d := w.delivered[j];
          Latest(w.log, d.number, d.seen, me, kind) && d.at <= w.log[d.number].at + ttl)
    && (forall i, j | 0 <= i < j < |w.delivered| :: w.delivered[i].number < w.delivered[j].number)
  }

  /** What is still stored for the run is newer than what it was given. */
  ghost predicate Fresh(w: World, me: string, kind: string) {
    Key(me, kind) in w.store.messages ==>
      forall j | 0 <= j < |w.delivered| ::
        var n := w.store.messages[Key(me, kind)].payload.body;
        w.delivered[j].number < n || (w.holding && w.delivered[j].number == n && j == |w.delivered| - 1)
  }

  /** Something is stored for the run exactly when a deposit for it came after its latest delete. */
  ghost predicate Present(w: World, me: string, kind: string) {
    && w.cut <= |w.log|
    && (Key(me, kind) in w.store.messages <==>
          exists n | w.cut <= n < |w.log| :: w.log[n].runID == me && w.log[n].receiverType == kind)
  }

  ghost predicate Invariant(w: World, me: string, kind: string, ttl: nat) {
    && StoreSound(w, ttl) && InOrder(w, me, kind, ttl) && Fresh(w, me, kind) && Present(w, me, kind)
    && (w.holding ==> w.delivered != [])
  }

  lemma StepKeepsStore(w: World, a: Action, me: string, kind: string, ttl: nat)
    requires Invariant(w, me, kind, ttl) && Allowed(a, me, kind) && ColonFree(kind)
    ensures StoreSound(Step(w, a, me, kind, ttl), ttl) && Present(Step(w, a, me, kind, ttl), me, kind)
  {
    var w' := Step(w, a, me, kind, ttl);
    match a
    case Tick(_) =>
    case Arrive(r, t) =>
      TypesInjective(r, t);
      assert forall i | 0 <= i < |w.log| :: w'.log[i] == w.log[i];
      assert w'.log[|w.log|] == Deposited(r, t, w.now);
    case OtherDelete(r, t) => TypesInjective(r, t);
    case Poll =>
    case Discard => TypesInjective(me, kind);
  }

  lemma StepKeepsOrder(w: World, a: Action, me: string, kind: string, ttl: nat)
    requires Invariant(w, me, kind, ttl) && Allowed(a, me, kind) && ColonFree(kind)
    ensures InOrder(Step(w, a, me, kind, ttl), me, kind, ttl) && Fresh(Step(w, a, me, kind, ttl), me, kind)
  {
    if a.Arrive? {
      TypesInjective(a.runID, a.receiverType);
      assert forall i | 0 <= i < |w.log| :: Step(w, a, me, kind, ttl).log[i] == w.log[i];
    }
  }

  lemma StepKeepsInvariant(w: World, a: Action, me: string, kind: string, ttl: nat)
    requires Invariant(w, me, kind, ttl) && Allowed(a, me, kind) && ColonFree(kind)
    ensures Invariant(Step(w, a, me, kind, ttl), me, kind, ttl)
  {
    StepKeepsStore(w, a, me, kind, ttl);
    StepKeepsOrder(w, a, me, kind, ttl);
  }

  /** Delivery across attempts, over every interleaving. */
  lemma {:induction false} DeliveryInOrder(w: World, actions: seq<Action>, me: string, kind: string, ttl: nat)
    requires Invariant(w, me, kind, ttl) && AllAllowed(actions, me, kind) && ColonFree(kind)
    ensures Invariant(Run(w, actions, me, kind, ttl), me, kind, ttl)
    decreases |actions|
  {
    if actions != [] {
      StepKeepsInvariant(w, actions[0], me, kind, ttl);
      DeliveryInOrder(Step(w, actions[0], me, kind, ttl), actions[1..], me, kind, ttl);
    }
  }

  /** From the start: strictly increasing numbers, so no message is delivered twice. */
  lemma WebhookDelivery(actions: seq<Action>, me: string, ttl: nat)
    requires AllAllowed(actions, me, WEBHOOK)
    ensures InOrder(Run(START, actions, me, WEBHOOK, ttl), me, WEBHOOK, ttl)
  {
    DeliveryInOrder(START, actions, me, WEBHOOK, ttl);
  }

  /** A poll delivers deposit n exactly when n is the latest for this run and type, came after the
      run's latest delete, and has not expired. */
  lemma PollDelivers(w: World, n: nat, me: string, kind: string, ttl: nat)
    requires Invariant(w, me, kind, ttl) && ColonFree(kind) && !w.holding
    ensures Step(w, Poll, me, kind, ttl).delivered == w.delivered + [Claimed(n, w.now, |w.log|)] <==>
            Latest(w.log, n, |w.log|, me, kind) && w.cut <= n && w.now <= w.log[n].at + ttl
  {
    var key := Key(me, kind);
    if key in w.store.messages {
      var m := w.store.messages[key].payload.body;
      assert Latest(w.log, m, |w.log|, me, kind);
      assert [Claimed(m, w.now, |w.log|)][0] == Claimed(m, w.now, |w.log|);
      if w.delivered + [Claimed(m, w.now, |w.log|)] == w.delivered + [Claimed(n, w.now, |w.log|)] {
        assert (w.delivered + [Claimed(m, w.now, |w.log|)])[|w.delivered|] ==
               (w.delivered + [Claimed(n, w.now, |w.log|)])[|w.delivered|];
      }
    }
  }

  // ---- What can be lost ----

  /** Deposit n is neither stored for the run nor ever given to it. */
  ghost predicate Gone(w: World, n: nat, me: string, kind: string) {
    && n < |w.log|
    && (forall j | 0 <= j < |w.delivered| :: w.delivered[j].number != n)
    && (Key(me, kind) in w.store.messages ==> w.store.messages[Key(me, kind)].payload.body != n)
  }

  lemma {:induction false} GoneStaysGone(w: World, n: nat, actions: seq<Action>, me: string, kind: string, ttl: nat)
    requires Gone(w, n, me, kind)
    ensures Gone(Run(w, actions, me, kind, ttl), n, me, kind)
    decreases |actions|
  {
    if actions != [] {
      GoneStaysGone(Step(w, actions[0], me, kind, ttl), n, actions[1..], me, kind, ttl);
    }
  }

  /** A message that arrives between the claim and the delete of an earlier one is deleted unread:
      no continuation delivers it. */
  lemma ArrivalDuringClaimIsLost(w: World, rest: seq<Action>, me: string, kind: string, ttl: nat)
    requires Invariant(w, me, kind, ttl) && ColonFree(kind) && w.holding
    ensures var w2 := Step(Step(w, Arrive(me, kind), me, kind, ttl), Discard, me, kind, ttl);
            forall d <- Run(w2, rest, me, kind, ttl).delivered :: d.number != |w.log|
  {
    var w2 := Step(Step(w, Arrive(me, kind), me, kind, ttl), Discard, me, kind, ttl);
    assert forall j | 0 <= j < |w.delivered| :: w.delivered[j].number < |w.log|;
    assert Gone(w2, |w.log|, me, kind);
    GoneStaysGone(w2, |w.log|, rest, me, kind, ttl);
  }
}
