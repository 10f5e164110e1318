/** The bounded result cache of the API: a map and an order list that together are one queue, and
    what polling clients see of it. */
module ResultCache {
  import opened Text
  import opened Domain

  const MAX_STORED_RESULTS: nat := 100

  datatype Cache = Cache(results: map<string, TestResult>, order: seq<string>)

  const EMPTY := Cache(map[], [])

  /** storeResult on values. */
  function Store(c: Cache, r: TestResult): Cache {
    var order := if r.runID in c.results then c.order else c.order + [r.runID];
    var results := c.results[r.runID := r];
    if |order| > MAX_STORED_RESULTS then Cache(results - {order[0]}, order[1..]) else Cache(results, order)
  }

  /** The order list names each entry once. */
  ghost predicate Sound(c: Cache) {
    && (forall i, j | 0 <= i < j < |c.order| :: c.order[i] != c.order[j])
    && (forall k :: k in c.order <==> k in c.results)
    && (forall k <- c.results :: c.results[k].runID == k)
  }

  ghost predicate Valid(c: Cache) {
    Sound(c) && |c.order| <= 100
  }

  class Server {
    var results: map<string, TestResult>
    var resultOrder: seq<string>

    constructor ()
      ensures View() == EMPTY
    {
      results := map[];
      resultOrder := [];
    }

    function View(): Cache
      reads this
    {
      Cache(results, resultOrder)
    }

    method StoreResult(r: TestResult)
      modifies this
      ensures View() == Store(old(View()), r)
      ensures old(Valid(View())) ==> Valid(View())
    {
      ghost var before := View();
      if r.runID !in results {
        resultOrder := resultOrder + [r.runID];
      }
      results := results[r.runID := r];
      if |resultOrder| > MAX_STORED_RESULTS {
        var oldest := resultOrder[0];
        resultOrder := resultOrder[1..];
        results := results - {oldest};
      }
      if Valid(before) { StoreRefines(before, r); }
    }

    /** handleResultByID; None is the not-found reply. */
    method ResultByID(runID: string) returns (r: Option<TestResult>)
      ensures r == Lookup(View(), runID)
    {
      if runID in results { return Some(results[runID]); }
      return None;
    }

    /** handleResults: every id of the order list has its entry. */
    method Results() returns (list: seq<TestResult>)
      requires Valid(View())
      ensures list == Contents(View())
    {
      list := [];
      for i := 0 to |resultOrder|
        invariant |list| == i && forall j | 0 <= j < i :: list[j] == Contents(View())[j]
      {
        list := list + [results[resultOrder[i]]];
      }
    }
  }

  function Lookup(c: Cache, runID: string): Option<TestResult> {
    if runID in c.results then Some(c.results[runID]) else None
  }

  // ---- The queue ----

  function Contents(c: Cache): seq<TestResult>
    requires forall k <- c.order :: k in c.results
  {
    seq(|c.order|, i requires 0 <= i < |c.order| => c.results[c.order[i]])
  }

  /** A bounded queue: update in place, or append and evict the oldest. */
  function Push(q: seq<TestResult>, r: TestResult): seq<TestResult> {
    if exists i :: 0 <= i < |q| && q[i].runID == r.runID then
      seq(|q|, i requires 0 <= i < |q| => if q[i].runID == r.runID then r else q[i])
    else if |q| < 100 then q + [r]
    else (q + [r])[1..]
  }

  function PushAll(q: seq<TestResult>, rs: seq<TestResult>): seq<TestResult>
    decreases |rs|
  {
    if rs == [] then q else PushAll(Push(q, rs[0]), rs[1..])
  }

  function StoreAll(c: Cache, rs: seq<TestResult>): Cache
    decreases |rs|
  {
    if rs == [] then c else StoreAll(Store(c, rs[0]), rs[1..])
  }

  lemma UpdateRefines(c: Cache, r: TestResult)
    requires Valid(c) && r.runID in c.results
    ensures Valid(Store(c, r)) && Contents(Store(c, r)) == Push(Contents(c), r)
  {
    var q := Contents(c);
    assert r.runID in c.order;
    var i :| 0 <= i < |c.order| && c.order[i] == r.runID;
    assert q[i].runID == r.runID;
  }

  lemma AppendSound(c: Cache, r: TestResult)
    requires Sound(c) && r.runID !in c.results
    ensures var c' := Cache(c.results[r.runID := r], c.order + [r.runID]);
            Sound(c') && Contents(c') == Contents(c) + [r]
  {
  }

  lemma EvictSound(c: Cache)
    requires Sound(c) && c.order != []
    ensures var c' := Cache(c.results - {c.order[0]}, c.order[1..]);
            Sound(c') && Contents(c') == Contents(c)[1..]
  {
    var c' := Cache(c.results - {c.order[0]}, c.order[1..]);
    forall k ensures k in c'.order <==> k in c'.results {
      assert k in c.order <==> k == c.order[0] || k in c.order[1..];
    }
  }

  lemma AppendRefines(c: Cache, r: TestResult)
    requires Valid(c) && r.runID !in c.results
    ensures Valid(Store(c, r)) && Contents(Store(c, r)) == Push(Contents(c), r)
  {
    var q := Contents(c);
    var c' := Cache(c.results[r.runID := r], c.order + [r.runID]);
    AppendSound(c, r);
    assert forall i | 0 <= i < |q| :: q[i].runID == c.order[i] && c.order[i] in c.order;
    if |c'.order| > MAX_STORED_RESULTS { EvictSound(c'); }
  }

  lemma StoreRefines(c: Cache, r: TestResult)
    requires Valid(c)
    ensures Valid(Store(c, r)) && Contents(Store(c, r)) == Push(Contents(c), r)
  {
    if r.runID in c.results { UpdateRefines(c, r); } else { AppendRefines(c, r); }
  }

  /** After every trace of stores, the cache is the queue: distinct ids, exactly the keys, at most
      100, and the same contents in the same order. */
  lemma {:induction false} CacheIsQueue(c: Cache, rs: seq<TestResult>)
    requires Valid(c)
    ensures Valid(StoreAll(c, rs)) && Contents(StoreAll(c, rs)) == PushAll(Contents(c), rs)
    decreases |rs|
  {
    if rs != [] {
      StoreRefines(c, rs[0]);
      CacheIsQueue(Store(c, rs[0]), rs[1..]);
    }
  }

  ghost predicate DistinctRuns(rs: seq<TestResult>) {
    forall i, j | 0 <= i < j < |rs| :: rs[i].runID != rs[j].runID
  }

  /** The last hundred. */
  function Latest(rs: seq<TestResult>): seq<TestResult> {
    if |rs| <= 100 then rs else rs[|rs| - 100..]
  }

  lemma {:induction false} PushAllAppend(q: seq<TestResult>, rs: seq<TestResult>, r: TestResult)
    ensures PushAll(q, rs + [r]) == Push(PushAll(q, rs), r)
    decreases |rs|
  {
    if rs == [] {
      assert (rs + [r])[1..] == [];
    } else {
      assert (rs + [r])[1..] == rs[1..] + [r];
      PushAllAppend(Push(q, rs[0]), rs[1..], r);
    }
  }

  /** Of results of different runs the cache holds exactly the latest hundred, in order. */
  lemma LatestStay(rs: seq<TestResult>)
    requires DistinctRuns(rs)
    ensures Valid(StoreAll(EMPTY, rs)) && Contents(StoreAll(EMPTY, rs)) == Latest(rs)
  {
    CacheIsQueue(EMPTY, rs);
    assert Contents(EMPTY) == [];
    LatestPushed(rs);
  }

  lemma LatestMore(rs: seq<TestResult>, r: TestResult)
    requires forall x <- rs :: x.runID != r.runID
    ensures Push(Latest(rs), r) == Latest(rs + [r])
  {
    assert forall x | x in Latest(rs) :: x in rs;
    if |rs| >= 100 { assert (Latest(rs) + [r])[1..] == rs[|rs| - 99..] + [r] == (rs + [r])[|rs| - 99..]; }
  }

  lemma {:induction false} LatestPushed(rs: seq<TestResult>)
    requires DistinctRuns(rs)
    ensures PushAll([], rs) == Latest(rs)
  {
    if rs != [] {
      var init, r := rs[..|rs| - 1], rs[|rs| - 1];
      assert rs == init + [r] && forall i | 0 <= i < |init| :: init[i] == rs[i];
      LatestPushed(init);
      PushAllAppend([], init, r);
      LatestMore(init, r);
    }
  }

  /** A run that is stored again keeps its place. */
  lemma StoredInPlace(c: Cache, r: TestResult, i: nat)
    requires Valid(c) && i < |c.order| && c.order[i] == r.runID
    ensures Contents(Store(c, r)) == Contents(c)[i := r]
  {
    UpdateRefines(c, r);
    assert c.order[i] in c.order;
    assert forall j | 0 <= j < |c.order| && j != i :: c.order[j] != r.runID;
  }

  // ---- Polling ----

  /** Each run stores its final result once; an async run stores a running result once, before. */
  ghost predicate ProgramOrder(rs: seq<TestResult>) {
    forall i, j | 0 <= i < j < |rs| && rs[i].runID == rs[j].runID :: rs[i].status == Running && rs[j].status != Running
  }

  /** No entry comes from nowhere, and an id stored twice shows its latest result. */
  lemma {:induction false} LookupIsLast(rs: seq<TestResult>, id: string)
    ensures var found := Lookup(StoreAll(EMPTY, rs), id);
            found.Some? ==> exists i | 0 <= i < |rs| ::
              rs[i] == found.value && rs[i].runID == id && forall j | i < j < |rs| :: rs[j].runID != id
  {
    if rs != [] {
      var n := |rs| - 1;
      LookupIsLast(rs[..n], id);
      assert rs == rs[..n] + [rs[n]];
      StoreAppend(EMPTY, rs[..n], rs[n]);
      var found := Lookup(StoreAll(EMPTY, rs), id);
      if found.Some? {
        if rs[n].runID == id {
          assert found.value == rs[n];
        } else {
          assert Lookup(StoreAll(EMPTY, rs[..n]), id) == found;
          var i :| 0 <= i < n && rs[..n][i] == found.value && rs[..n][i].runID == id
                   && forall j | i < j < n :: rs[..n][j].runID != id;
          assert rs[i] == found.value && forall j | i < j < |rs| :: j < n ==> rs[j] == rs[..n][j];
        }
      }
    }
  }

  lemma {:induction false} StoreAppend(c: Cache, rs: seq<TestResult>, r: TestResult)
    ensures StoreAll(c, rs + [r]) == Store(StoreAll(c, rs), r)
    decreases |rs|
  {
    if rs == [] {
      assert (rs + [r])[1..] == [];
    } else {
      assert (rs + [r])[1..] == rs[1..] + [r];
      StoreAppend(Store(c, rs[0]), rs[1..], r);
    }
  }

  /** Polling is monotone: in every interleaving of async and sync runs, with evictions, once the
      final result of a run was stored, a read of its id gives that result or nothing. */
  lemma FinalStaysFinal(rs: seq<TestResult>, i: nat)
    requires ProgramOrder(rs) && i < |rs| && rs[i].status != Running
    ensures var found := Lookup(StoreAll(EMPTY, rs), rs[i].runID);
            found == None || found == Some(rs[i])
  {
    LookupIsLast(rs, rs[i].runID);
    var found := Lookup(StoreAll(EMPTY, rs), rs[i].runID);
    if found.Some? {
      var n :| 0 <= n < |rs| && rs[n] == found.value && rs[n].runID == rs[i].runID
               && forall j | n < j < |rs| :: rs[j].runID != rs[i].runID;
      assert n == i;
    }
  }

  // ---- Handlers ----

  /** Where handleRun stands for a run id: issued by the orchestrator, announced as running (async
      only), or concluded with its final result. */
  datatype Phase = Issued(async: bool) | Announced | Concluded

  datatype Move = Issue(runID: string, async: bool) | Announce(runID: string) | Conclude(result: TestResult)

  datatype Api = Api(cache: Cache, stored: seq<TestResult>, phases: map<string, Phase>)

  const IDLE := Api(EMPTY, [], map[])

  function RunningResult(runID: string): TestResult {
    TestResult(runID, Running, 0, [], "", map[])
  }

  /** Run ids are unique. An async run is announced before its goroutine can store the result. */
  predicate Enabled(w: Api, m: Move) {
    match m
    case Issue(id, _) => id !in w.phases
    case Announce(id) => id in w.phases && w.phases[id] == Issued(true)
    case Conclude(r) =>
      && r.status != Running && r.runID in w.phases
      && (w.phases[r.runID] == Issued(false) || w.phases[r.runID] == Announced)
  }

  function Stored(w: Api, r: TestResult, phase: Phase): Api {
    Api(Store(w.cache, r), w.stored + [r], w.phases[r.runID := phase])
  }

  function Next(w: Api, m: Move): Api {
    match m
    case Issue(id, async) => w.(phases := w.phases[id := Issued(async)])
    case Announce(id) => Stored(w, RunningResult(id), Announced)
    case Conclude(r) => Stored(w, r, Concluded)
  }

  function After(w: Api, moves: seq<Move>): Api
    decreases |moves|
  {
    if moves == [] then w else After(Next(w, moves[0]), moves[1..])
  }

  ghost predicate AllEnabled(w: Api, moves: seq<Move>)
    decreases |moves|
  {
    moves != [] ==> Enabled(w, moves[0]) && AllEnabled(Next(w, moves[0]), moves[1..])
  }

  ghost predicate Consistent(w: Api) {
    && w.cache == StoreAll(EMPTY, w.stored) && ProgramOrder(w.stored)
    && forall r <- w.stored :: r.runID in w.phases && !w.phases[r.runID].Issued?
                               && (w.phases[r.runID].Announced? ==> r.status == Running)
  }

  lemma MoveKeepsConsistent(w: Api, m: Move)
    requires Consistent(w) && Enabled(w, m)
    ensures Consistent(Next(w, m)) && w.stored <= Next(w, m).stored
  {
    match m
    case Issue(_, _) =>
    case Announce(id) => StoredKeepsConsistent(w, RunningResult(id), Announced);
    case Conclude(r) => StoredKeepsConsistent(w, r, Concluded);
  }

  lemma StoredKeepsConsistent(w: Api, r: TestResult, phase: Phase)
    requires Consistent(w) && !phase.Issued? && (phase.Announced? ==> r.status == Running)
    requires forall x <- w.stored | x.runID == r.runID :: x.status == Running && r.status != Running
    ensures Consistent(Stored(w, r, phase))
  {
    StoreAppend(EMPTY, w.stored, r);
    var rs := w.stored + [r];
    assert forall i | 0 <= i < |w.stored| :: rs[i] == w.stored[i] && rs[i] in w.stored;
  }

  lemma {:induction false} MovesKeepConsistent(w: Api, moves: seq<Move>)
    requires Consistent(w) && AllEnabled(w, moves)
    ensures Consistent(After(w, moves)) && w.stored <= After(w, moves).stored
    decreases |moves|
  {
    if moves != [] {
      MoveKeepsConsistent(w, moves[0]);
      MovesKeepConsistent(Next(w, moves[0]), moves[1..]);
    }
  }

  /** In every interleaving of async and sync handlers: once the final result r of a run was
      stored, no later read of its id shows anything but r, or nothing after an eviction. */
  lemma PollingIsMonotone(past: seq<Move>, future: seq<Move>, r: TestResult)
    requires AllEnabled(IDLE, past) && AllEnabled(After(IDLE, past), future)
    requires r in After(IDLE, past).stored && r.status != Running
    ensures var found := Lookup(After(After(IDLE, past), future).cache, r.runID); found == None || found == Some(r)
  {
    MovesKeepConsistent(IDLE, past);
    var w := After(IDLE, past);
    MovesKeepConsistent(w, future);
    var last := After(w, future);
    var i :| 0 <= i < |w.stored| && w.stored[i] == r;
    assert last.stored[i] == r;
    FinalStaysFinal(last.stored, i);
  }
}
