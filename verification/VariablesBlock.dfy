/** The variables block of a test, resolved in whatever order its map is iterated. */
module VariablesBlock {
  import opened Text
  import opened Rewriting
  import opened Template
  import opened TemplateOrder
  import opened ReservedNames

  const RUN_ID := "run_id"

  predicate Reserved(k: string) {
    k == "run_id" || k == "test_id" || k == "error"
  }

  function Bound(block: Env): set<string> {
    set k | k in block && !Reserved(k)
  }

  /** Values that are templates without counters and generators; names and run id carry no brace. */
  ghost predicate Simple(block: Env, runID: string) {
    && BraceFree(runID) && BraceFreeKeys(block)
    && forall k <- Bound(block) :: IsTemplate(block[k]) && Plain(Parse(block[k]))
  }

  /** What a value means: only the run id is substituted. */
  function Resolved(value: string, runID: string): string {
    Print(Expand(Parse(value), map[RUN_ID := runID]))
  }

  /** No value mentions another variable of the block, except one whose value is its own mention. */
  ghost predicate Independent(block: Env, runID: string) {
    forall a, b | a in Bound(block) && b in Bound(block) && a != b && Hole(b) in Parse(block[a]) ::
      Resolved(block[b], runID) == Show(Hole(b))
  }

  function Environment(block: Env, runID: string): Env {
    (map k | k in block && !Reserved(k) :: Resolved(block[k], runID))[RUN_ID := runID]
  }

  // ---- The loop over the block ----

  /** One round of the loop: the name reached, and how the variables were iterated inside. */
  datatype Round = Round(name: string, inner: seq<string>)

  datatype Progress = Progress(vars: Env, used: nat)

  /** What a round leaves; None for a round that no iteration takes. */
  ghost function After(block: Env, p: Progress, round: Round, draw: nat -> string): Option<Progress> {
    if round.name !in block then None
    else if Reserved(round.name) then Some(p)
    else
      var vars := AfterCounters(block[round.name], p.vars).1;
      if !IsOrder(round.inner, vars.Keys) then None
      else
        var (text, used) := Replaced(block[round.name], p.vars, round.inner, draw, p.used);
        Some(Progress(vars[round.name := text], used))
  }

  ghost function AfterAll(block: Env, p: Progress, rounds: seq<Round>, draw: nat -> string): Option<Progress> {
    if rounds == [] then Some(p)
    else
      match AfterAll(block, p, rounds[..|rounds| - 1], draw)
      case None => None
      case Some(q) => After(block, q, rounds[|rounds| - 1], draw)
  }

  function Names(rounds: seq<Round>): set<string> {
    set i | 0 <= i < |rounds| :: rounds[i].name
  }

  lemma NamesAppend(rounds: seq<Round>, round: Round)
    ensures Names(rounds + [round]) == Names(rounds) + {round.name}
  {
    var all := rounds + [round];
    forall k ensures k in Names(all) <==> k in Names(rounds) + {round.name} {
      if k in Names(rounds) { var i :| 0 <= i < |rounds| && rounds[i].name == k; assert all[i].name == k; }
      if k == round.name { assert all[|rounds|].name == k; }
    }
  }

  /** These names are reached, once each. */
  ghost predicate Reached(rounds: seq<Round>, names: set<string>) {
    && Names(rounds) == names
    && (forall i, j | 0 <= i < j < |rounds| :: rounds[i].name != rounds[j].name)
  }

  // ---- The reserved names ----

  /** A counter operator in some value of the block names k. */
  ghost predicate CountedIn(block: Env, k: string) {
    exists b <- block :: Counts("++", k, block[b]) || Counts("--", k, block[b])
  }

  lemma RoundKeepsName(block: Env, p: Progress, round: Round, draw: nat -> string, k: string)
    requires k == "run_id" || k == "test_id" || k == "error"
    requires After(block, p, round, draw).Some?
    ensures var vars := After(block, p, round, draw).value.vars;
            Same(p.vars, vars, k) || (CountedIn(block, k) && HoldsInteger(vars, k))
  {
    if !Reserved(round.name) { CountersWriteCounted(block[round.name], p.vars, k); }
  }

  /** Whatever the order, the block writes none of the three names, except through a counter. */
  lemma {:induction false} RoundsKeepName(block: Env, p: Progress, rounds: seq<Round>, draw: nat -> string, k: string)
    requires k == "run_id" || k == "test_id" || k == "error"
    requires AfterAll(block, p, rounds, draw).Some?
    ensures var vars := AfterAll(block, p, rounds, draw).value.vars;
            Same(p.vars, vars, k) || (CountedIn(block, k) && HoldsInteger(vars, k))
  {
    if rounds != [] {
      var n := |rounds| - 1;
      RoundsKeepName(block, p, rounds[..n], draw, k);
      RoundKeepsName(block, AfterAll(block, p, rounds[..n], draw).value, rounds[n], draw, k);
    }
  }

  lemma RoundDefines(block: Env, p: Progress, round: Round, draw: nat -> string, k: string)
    requires After(block, p, round, draw).Some?
    requires k in p.vars || (k == round.name && k != "run_id" && k != "test_id" && k != "error")
    ensures k in After(block, p, round, draw).value.vars
  {
    if !Reserved(round.name) && k in p.vars { CountersKeepNames(block[round.name], p.vars, k); }
  }

  /** Every other name that was reached is defined. */
  lemma {:induction false} RoundsDefine(block: Env, p: Progress, rounds: seq<Round>, draw: nat -> string, k: string)
    requires k != "run_id" && k != "test_id" && k != "error" && k in Names(rounds)
    requires AfterAll(block, p, rounds, draw).Some?
    ensures k in AfterAll(block, p, rounds, draw).value.vars
  {
    var n := |rounds| - 1;
    var init := rounds[..n];
    assert rounds == init + [rounds[n]];
    NamesAppend(init, rounds[n]);
    if k in Names(init) { RoundsDefine(block, p, init, draw, k); }
    RoundDefines(block, AfterAll(block, p, init, draw).value, rounds[n], draw, k);
  }

  /** What the block leaves: test_id and error only as counters that some value counts, run_id as it
      was unless some value counts it, and every other name of the block. */
  ghost predicate NamesLeft(block: Env, runID: string, vars: Env) {
    && ("test_id" in vars ==> CountedIn(block, "test_id") && HoldsInteger(vars, "test_id"))
    && ("error" in vars ==> CountedIn(block, "error") && HoldsInteger(vars, "error"))
    && "run_id" in vars
    && (vars["run_id"] == runID || (CountedIn(block, "run_id") && HoldsInteger(vars, "run_id")))
    && forall k <- block | k != "run_id" && k != "test_id" && k != "error" :: k in vars
  }

  lemma BlockLeaves(block: Env, runID: string, used: nat, rounds: seq<Round>, draw: nat -> string)
    requires Names(rounds) == block.Keys && AfterAll(block, Progress(map[RUN_ID := runID], used), rounds, draw).Some?
    ensures NamesLeft(block, runID, AfterAll(block, Progress(map[RUN_ID := runID], used), rounds, draw).value.vars)
  {
    var p := Progress(map[RUN_ID := runID], used);
    RoundsKeepName(block, p, rounds, draw, "test_id");
    RoundsKeepName(block, p, rounds, draw, "error");
    RoundsKeepName(block, p, rounds, draw, "run_id");
    forall k <- block | k != "run_id" && k != "test_id" && k != "error"
      ensures k in AfterAll(block, p, rounds, draw).value.vars
    {
      RoundsDefine(block, p, rounds, draw, k);
    }
  }

  /** The first loop of executeSequential; rounds is how the block was iterated. */
  method ResolveBlock(block: Env, runID: string, rng: Random) returns (vars: Vars, ghost rounds: seq<Round>)
    modifies rng
    ensures fresh(vars) && Reached(rounds, block.Keys)
    ensures AfterAll(block, Progress(map[RUN_ID := runID], old(rng.used)), rounds, rng.stream) ==
            Some(Progress(vars.entries, rng.used))
    ensures NamesLeft(block, runID, vars.entries)
  {
    vars := new Vars(map[RUN_ID := runID]);
    rounds := [];
    var left := block.Keys;
    while left != {}
      invariant left <= block.Keys && fresh(vars) && Reached(rounds, block.Keys - left)
      invariant AfterAll(block, Progress(map[RUN_ID := runID], old(rng.used)), rounds, rng.stream) ==
                Some(Progress(vars.entries, rng.used))
    {
      var k :| k in left;
      ghost var inner: seq<string> := [];
      if !Reserved(k) {
        var text;
        text, inner := ReplaceString(block[k], vars, rng);
        vars.entries := vars.entries[k := text];
      }
      OneMore(rounds, block.Keys - left, Round(k, inner));
      left := left - {k};
      rounds := rounds + [Round(k, inner)];
      assert rounds[..|rounds| - 1] + [rounds[|rounds| - 1]] == rounds;
    }
    BlockLeaves(block, runID, old(rng.used), rounds, rng.stream);
  }

  lemma OneMore(rounds: seq<Round>, names: set<string>, round: Round)
    requires Reached(rounds, names) && round.name !in names
    ensures Reached(rounds + [round], names + {round.name})
  {
    NamesAppend(rounds, round);
  }

  lemma OneBefore(rounds: seq<Round>, init: seq<Round>, round: Round)
    requires Reached(rounds, Names(rounds)) && rounds == init + [round]
    ensures Reached(init, Names(init)) && round.name !in Names(init) && Names(rounds) == Names(init) + {round.name}
  {
    NamesAppend(init, round);
    assert forall i | 0 <= i < |init| :: rounds[i] == init[i];
    assert rounds[|init|] == round;
  }

  lemma AfterOneMore(block: Env, p: Progress, rounds: seq<Round>, round: Round, draw: nat -> string)
    ensures AfterAll(block, p, rounds + [round], draw) ==
            match AfterAll(block, p, rounds, draw) case None => None case Some(q) => After(block, q, round, draw)
  {
    assert (rounds + [round])[..|rounds|] == rounds;
  }

  // ---- One value ----

  lemma {:induction false} FineHoles(segs: seq<Segment>, x: string)
    ensures Hole(x) in Fine(segs) <==> Hole(x) in segs
  {
    if segs != [] {
      FineHoles(segs[1..], x);
      if segs[0].Lit? { CharactersNoHole(segs[0].text, x); }
      assert segs == [segs[0]] + segs[1..];
    }
  }

  lemma {:induction false} CharactersNoHole(t: string, x: string)
    ensures Hole(x) !in Characters(t)
  {
    if t != "" { CharactersNoHole(t[1..], x); }
  }

  /** A resolved value is again a plain template, with the mentions it had of other names. */
  lemma ResolvedPlain(value: string, runID: string)
    requires IsTemplate(value) && Plain(Parse(value)) && BraceFree(runID)
    ensures var e := Expand(Parse(value), map[RUN_ID := runID]);
            && WellFormed(e) && Plain(e)
            && IsTemplate(Resolved(value, runID)) && Plain(Parse(Resolved(value, runID)))
  {
    var vars := map[RUN_ID := runID];
    var e := Expand(Parse(value), vars);
    assert BraceFree("run_id");
    TextHasNoHole(runID);
    ExpandPrint(Parse(value), vars);
    ExpandPlain(Parse(value), vars);
    ParsePrint(e);
    forall x | Hole(x) in Fine(e) ensures PlainHole(x) { FineHoles(e, x); }
  }

  /** The other variables that the value mentions have their own mention as value. */
  ghost predicate OnlyMentions(segs: seq<Segment>, vars: Env) {
    forall x | Hole(x) in segs && x in vars && x != RUN_ID :: vars[x] == Show(Hole(x))
  }

  lemma {:induction false} OnlyRunIDExpands(segs: seq<Segment>, vars: Env)
    requires WellFormed(segs) && RUN_ID in vars && OnlyMentions(segs, vars)
    ensures Expand(segs, vars) == Expand(segs, map[RUN_ID := vars[RUN_ID]])
  {
    if segs != [] {
      var g := segs[0];
      assert g in segs && forall h :: h in segs[1..] ==> h in segs;
      OnlyRunIDExpands(segs[1..], vars);
      if g.Hole? && g.inner in vars && g.inner != RUN_ID { MentionReads(g.inner); }
    }
  }

  lemma OnlyMentionsHarmless(segs: seq<Segment>, vars: Env)
    requires WellFormed(segs) && RUN_ID in vars && BraceFree(vars[RUN_ID]) && OnlyMentions(segs, vars)
    ensures HarmlessIn(segs, vars)
  {
    TextHasNoHole(vars[RUN_ID]);
    forall a | Hole(a) in segs && a in vars ensures forall b | b != a :: Hole(b) !in Parse(vars[a]) {
      if a != RUN_ID { MentionReads(a); }
    }
  }

  /** One value, resolved over any part of the block that was resolved before it. */
  lemma ValueResolved(value: string, vars: Env, order: seq<string>, draw: nat -> string, used: nat)
    requires IsTemplate(value) && Plain(Parse(value)) && PlainValues(vars)
    requires RUN_ID in vars && BraceFree(vars[RUN_ID]) && OnlyMentions(Parse(value), vars)
    requires IsOrder(order, vars.Keys)
    ensures AfterCounters(value, vars).1 == vars
    ensures Replaced(value, vars, order, draw, used) == (Resolved(value, vars[RUN_ID]), used)
  {
    PlainReplaced(value, vars, order, draw, used);
    OnlyMentionsHarmless(Parse(value), vars);
    PrintParse(value);
    HarmlessOrderFree(Parse(value), order, vars);
    OnlyRunIDExpands(Parse(value), vars);
  }

  // ---- Orders that do not show ----

  /** The block without the names still to come. */
  function Without(block: Env, left: set<string>): Env {
    map k | k in block && k !in left :: block[k]
  }

  lemma NextName(block: Env, left: set<string>, k: string, runID: string)
    requires k in block && k in left
    ensures Environment(Without(block, left - {k}), runID) ==
            if Reserved(k) then Environment(Without(block, left), runID)
            else Environment(Without(block, left), runID)[k := Resolved(block[k], runID)]
  {
  }

  lemma PartReadable(block: Env, left: set<string>, runID: string)
    requires Simple(block, runID)
    ensures PlainValues(Environment(Without(block, left), runID))
  {
    var vars := Environment(Without(block, left), runID);
    assert BraceFree("run_id");
    TextHasNoHole(runID);
    forall k <- vars ensures BraceFree(k) && IsTemplate(vars[k]) && Plain(Parse(vars[k])) {
      if k != RUN_ID {
        assert k in Bound(block);
        ResolvedPlain(block[k], runID);
      }
    }
  }

  lemma PartMentions(block: Env, left: set<string>, k: string, runID: string)
    requires Independent(block, runID) && k in Bound(block) && k in left
    ensures OnlyMentions(Parse(block[k]), Environment(Without(block, left), runID))
  {
    var vars := Environment(Without(block, left), runID);
    forall x | Hole(x) in Parse(block[k]) && x in vars && x != RUN_ID ensures vars[x] == Show(Hole(x)) {
      assert x in Bound(block) && x != k;
    }
  }

  lemma RoundKeeps(block: Env, runID: string, left: set<string>, used: nat, round: Round, draw: nat -> string)
    requires Simple(block, runID) && Independent(block, runID) && round.name in block && round.name in left
    requires After(block, Progress(Environment(Without(block, left), runID), used), round, draw).Some?
    ensures After(block, Progress(Environment(Without(block, left), runID), used), round, draw).value ==
            Progress(Environment(Without(block, left - {round.name}), runID), used)
  {
    var (k, vars) := (round.name, Environment(Without(block, left), runID));
    NextName(block, left, k, runID);
    if !Reserved(k) {
      assert k in Bound(block);
      PartReadable(block, left, runID);
      PartMentions(block, left, k, runID);
      PlainCounters(block[k], vars);
      ValueResolved(block[k], vars, round.inner, draw, used);
    }
  }

  /** The environment of the names reached so far. */
  function Part(block: Env, runID: string, names: set<string>): Env {
    Environment(Without(block, block.Keys - names), runID)
  }

  lemma PartNext(block: Env, runID: string, p: Progress, init: seq<Round>, round: Round, draw: nat -> string, used: nat)
    requires Simple(block, runID) && Independent(block, runID) && round.name !in Names(init)
    requires AfterAll(block, p, init, draw) == Some(Progress(Part(block, runID, Names(init)), used))
    requires AfterAll(block, p, init + [round], draw).Some?
    ensures AfterAll(block, p, init + [round], draw) ==
            Some(Progress(Part(block, runID, Names(init) + {round.name}), used))
  {
    var left := block.Keys - Names(init);
    AfterOneMore(block, p, init, round, draw);
    RoundKeeps(block, runID, left, used, round, draw);
    assert left - {round.name} == block.Keys - (Names(init) + {round.name});
  }

  /** Part way through any iteration, the environment is that of the names reached so far. */
  lemma {:induction false} PartWay(block: Env, runID: string, p: Progress, rounds: seq<Round>, draw: nat -> string)
    requires Simple(block, runID) && Independent(block, runID) && Reached(rounds, Names(rounds))
    requires p.vars == map[RUN_ID := runID] && AfterAll(block, p, rounds, draw).Some?
    ensures AfterAll(block, p, rounds, draw) == Some(Progress(Part(block, runID, Names(rounds)), p.used))
  {
    if rounds == [] {
      assert Without(block, block.Keys) == map[] && block.Keys - Names([]) == block.Keys;
    } else {
      var init, round := rounds[..|rounds| - 1], rounds[|rounds| - 1];
      assert init + [round] == rounds;
      OneBefore(rounds, init, round);
      AfterOneMore(block, p, init, round, draw);
      PartWay(block, runID, p, init, draw);
      PartNext(block, runID, p, init, round, draw, p.used);
    }
  }

  /** One whole iteration of the block. */
  ghost predicate Iterates(block: Env, p: Progress, rounds: seq<Round>, draw: nat -> string) {
    Reached(rounds, block.Keys) && AfterAll(block, p, rounds, draw).Some?
  }

  /** Order-freedom: every iteration of an independent block, in every order of the block and of
      the variables, ends in the same environment and draws no random text. */
  lemma BlockOrderFree(block: Env, runID: string, rounds: seq<Round>, draw: nat -> string, used: nat)
    requires Simple(block, runID) && Independent(block, runID)
    requires Iterates(block, Progress(map[RUN_ID := runID], used), rounds, draw)
    ensures AfterAll(block, Progress(map[RUN_ID := runID], used), rounds, draw) ==
            Some(Progress(Environment(block, runID), used))
    ensures Environment(block, runID)[RUN_ID] == runID
    ensures Environment(block, runID).Keys == Bound(block) + {RUN_ID}
  {
    assert Names(rounds) == block.Keys;
    PartWay(block, runID, Progress(map[RUN_ID := runID], used), rounds, draw);
    assert Without(block, {}) == block && block.Keys - block.Keys == {};
  }

  // ---- Orders that show ----

  /** A round on a plain value writes its own name and nothing else. */
  lemma RoundWrites(block: Env, p: Progress, round: Round, draw: nat -> string)
    requires round.name in block && !Reserved(round.name) && IsOrder(round.inner, p.vars.Keys)
    requires IsTemplate(block[round.name]) && Plain(Parse(block[round.name]))
    ensures AfterCounters(block[round.name], p.vars).1 == p.vars
    ensures var (text, used) := Replaced(block[round.name], p.vars, round.inner, draw, p.used);
            After(block, p, round, draw) == Some(Progress(p.vars[round.name := text], used))
  {
    PlainCounters(block[round.name], p.vars);
  }

  /** The names already reached have their final values. */
  ghost predicate Settled(before: Env, after: Env, names: set<string>) {
    forall k <- names | !Reserved(k) && k in before :: k in after && after[k] == before[k]
  }

  /** Any beginning of an iteration can be completed, and keeps what it wrote. */
  lemma {:induction false} Completes(block: Env, runID: string, p: Progress, rounds: seq<Round>, draw: nat -> string)
    returns (all: seq<Round>)
    requires Simple(block, runID) && Reached(rounds, Names(rounds)) && Names(rounds) <= block.Keys
    requires AfterAll(block, p, rounds, draw).Some?
    ensures Iterates(block, p, all, draw)
    ensures Settled(AfterAll(block, p, rounds, draw).value.vars, AfterAll(block, p, all, draw).value.vars,
                    Names(rounds))
    decreases block.Keys - Names(rounds)
  {
    var left := block.Keys - Names(rounds);
    if left == {} {
      assert forall k <- block.Keys :: k !in left;
      all := rounds;
    } else {
      var k :| k in left;
      var q := AfterAll(block, p, rounds, draw).value;
      var round := Round(k, Enumerate(q.vars.Keys));
      if !Reserved(k) {
        assert k in Bound(block);
        RoundWrites(block, q, round, draw);
      }
      AfterOneMore(block, p, rounds, round, draw);
      OneMore(rounds, Names(rounds), round);
      all := Completes(block, runID, p, rounds + [round], draw);
    }
  }

  /** a reached first, and a reached right after b. */
  function First(a: string): seq<Round> {
    [Round(a, [RUN_ID])]
  }

  function Second(a: string, b: string): seq<Round> {
    [Round(b, [RUN_ID]), Round(a, [RUN_ID, b])]
  }

  lemma StartsReached(a: string, b: string)
    requires a != b
    ensures Reached(First(a), {a}) && Reached(Second(a, b), {a, b})
  {
    assert First(a)[0].name == a && Second(a, b)[0].name == b && Second(a, b)[1].name == a;
  }

  lemma MentionShows(block: Env, runID: string, a: string, b: string, draw: nat -> string, used: nat)
    requires Simple(block, runID) && a in Bound(block) && b in Bound(block) && a != b
    requires Hole(b) in Parse(block[a]) && Resolved(block[b], runID) != Show(Hole(b))
    ensures var p := Progress(map[RUN_ID := runID], used);
            var (x, y) := (AfterAll(block, p, First(a), draw), AfterAll(block, p, Second(a, b), draw));
            && x.Some? && y.Some? && a in x.value.vars && a in y.value.vars && x.value.vars[a] != y.value.vars[a]
  {
    var vars := map[RUN_ID := runID];
    var p := Progress(vars, used);
    AloneResolved(block, runID, a, draw, used);
    AloneResolved(block, runID, b, draw, used);
    var q := Progress(vars[b := Resolved(block[b], runID)], used);
    AfterMention(block, runID, a, b, draw, used);
    OneRound(block, p, Round(a, [RUN_ID]), draw);
    OneRound(block, p, Round(b, [RUN_ID]), draw);
    AfterOneMore(block, p, [Round(b, [RUN_ID])], Round(a, [RUN_ID, b]), draw);
    assert [Round(b, [RUN_ID])] + [Round(a, [RUN_ID, b])] == [Round(b, [RUN_ID]), Round(a, [RUN_ID, b])];
  }

  lemma OneRound(block: Env, p: Progress, round: Round, draw: nat -> string)
    ensures AfterAll(block, p, [round], draw) == After(block, p, round, draw)
  {
    assert [round][..0] == [];
  }

  lemma AloneResolved(block: Env, runID: string, k: string, draw: nat -> string, used: nat)
    requires Simple(block, runID) && k in Bound(block)
    ensures After(block, Progress(map[RUN_ID := runID], used), Round(k, [RUN_ID]), draw) ==
            Some(Progress(map[RUN_ID := runID][k := Resolved(block[k], runID)], used))
  {
    var vars := map[RUN_ID := runID];
    assert BraceFree("run_id");
    TextHasNoHole(runID);
    assert vars.Keys == {RUN_ID} && IsOrder([RUN_ID], vars.Keys);
    ValueResolved(block[k], vars, [RUN_ID], draw, used);
    RoundWrites(block, Progress(vars, used), Round(k, [RUN_ID]), draw);
  }

  lemma AfterMention(block: Env, runID: string, a: string, b: string, draw: nat -> string, used: nat)
    requires Simple(block, runID) && a in Bound(block) && b in Bound(block) && a != b
    requires Hole(b) in Parse(block[a]) && Resolved(block[b], runID) != Show(Hole(b))
    ensures var q := Progress(map[RUN_ID := runID][b := Resolved(block[b], runID)], used);
            var r := After(block, q, Round(a, [RUN_ID, b]), draw);
            r.Some? && a in r.value.vars && r.value.vars[a] != Resolved(block[a], runID)
  {
    var vars := map[RUN_ID := runID][b := Resolved(block[b], runID)];
    TwoPlainValues(block, runID, b);
    PlainReplaced(block[a], vars, [RUN_ID, b], draw, used);
    RoundWrites(block, Progress(vars, used), Round(a, [RUN_ID, b]), draw);
    ThenMention(block[a], b, vars);
  }

  lemma TwoPlainValues(block: Env, runID: string, b: string)
    requires Simple(block, runID) && b in Bound(block)
    ensures var vars := map[RUN_ID := runID][b := Resolved(block[b], runID)];
            PlainValues(vars) && IsOrder([RUN_ID, b], vars.Keys)
  {
    assert BraceFree("run_id");
    TextHasNoHole(runID);
    ResolvedPlain(block[b], runID);
    assert map[RUN_ID := runID][b := Resolved(block[b], runID)].Keys == {RUN_ID, b};
  }

  /** First the run id, then b, put into a value that mentions b. */
  lemma ThenMention(value: string, b: string, vars: Env)
    requires IsTemplate(value) && Plain(Parse(value)) && Hole(b) in Parse(value) && b != RUN_ID
    requires PlainValues(vars) && RUN_ID in vars && BraceFree(vars[RUN_ID]) && b in vars && vars[b] != Show(Hole(b))
    ensures Substitute(value, [RUN_ID, b], vars) != Resolved(value, vars[RUN_ID])
  {
    var st := State(vars, 0);
    var e := Expand(Parse(value), map[RUN_ID := vars[RUN_ID]]);
    PrintParse(value);
    ReplaceAllExpands(Parse(value), RUN_ID, vars[RUN_ID], st);
    ReplaceAllExpands(e, b, vars[b], st);
    KeepsMention(Parse(value), b, map[RUN_ID := vars[RUN_ID]]);
    ExpandShows(e, b, vars[b]);
    assert [RUN_ID, b] == [] + [RUN_ID, b];
    SubstituteLastTwo(value, [], RUN_ID, b, vars);
  }

  lemma {:induction false} KeepsMention(segs: seq<Segment>, b: string, vars: Env)
    requires Hole(b) in segs && b !in vars
    ensures Hole(b) in Expand(segs, vars)
  {
    if segs[0] != Hole(b) { KeepsMention(segs[1..], b, vars); }
  }

  // ---- The exact condition ----

  /** All iterations of the block end alike. */
  ghost predicate OrderNeverShows(block: Env, p: Progress, draw: nat -> string) {
    forall r1, r2 | Iterates(block, p, r1, draw) && Iterates(block, p, r2, draw) ::
      AfterAll(block, p, r1, draw) == AfterAll(block, p, r2, draw)
  }

  /** A value that mentions another variable of the block depends on the order. */
  lemma DependentBlockDependsOnOrder(block: Env, runID: string, a: string, b: string, draw: nat -> string, used: nat)
    returns (r1: seq<Round>, r2: seq<Round>)
    requires Simple(block, runID) && a in Bound(block) && b in Bound(block) && a != b
    requires Hole(b) in Parse(block[a]) && Resolved(block[b], runID) != Show(Hole(b))
    ensures var p := Progress(map[RUN_ID := runID], used);
            && Iterates(block, p, r1, draw) && Iterates(block, p, r2, draw)
            && AfterAll(block, p, r1, draw) != AfterAll(block, p, r2, draw)
  {
    var p := Progress(map[RUN_ID := runID], used);
    MentionShows(block, runID, a, b, draw, used);
    StartsReached(a, b);
    r1 := Completes(block, runID, p, First(a), draw);
    r2 := Completes(block, runID, p, Second(a, b), draw);
    DifferInOne(AfterAll(block, p, r1, draw), AfterAll(block, p, r2, draw), a);
  }

  lemma DifferInOne(x: Option<Progress>, y: Option<Progress>, a: string)
    requires x.Some? && y.Some? && a in x.value.vars && a in y.value.vars && x.value.vars[a] != y.value.vars[a]
    ensures x != y
  {
  }

  /** Exact order-freedom: the order of the block never shows if and only if it is independent. */
  lemma BlockOrderFreeExactly(block: Env, runID: string, draw: nat -> string, used: nat)
    requires Simple(block, runID)
    ensures OrderNeverShows(block, Progress(map[RUN_ID := runID], used), draw) <==> Independent(block, runID)
  {
    var p := Progress(map[RUN_ID := runID], used);
    if Independent(block, runID) {
      forall r1, r2 | Iterates(block, p, r1, draw) && Iterates(block, p, r2, draw)
        ensures AfterAll(block, p, r1, draw) == AfterAll(block, p, r2, draw)
      {
        BlockOrderFree(block, runID, r1, draw, used);
        BlockOrderFree(block, runID, r2, draw, used);
      }
    } else {
      var a, b :| a in Bound(block) && b in Bound(block) && a != b && Hole(b) in Parse(block[a])
                  && Resolved(block[b], runID) != Show(Hole(b));
      var r1, r2 := DependentBlockDependsOnOrder(block, runID, a, b, draw, used);
    }
  }
}
