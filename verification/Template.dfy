/** ReplaceString over a shared variable map that counter operators write: what it computes on
    any string, and on templates its independence of the map's iteration order, the exact
    meaning of the guard, and the conservation of counters. */
module Template {
  import opened Text
  import opened TextLaws
  import opened Rewriting

  // ---- The specification on flat strings ----

  /** order lists each key once: one iteration of a Go map. */
  ghost predicate IsOrder<K(!new)>(order: seq<K>, keys: set<K>) {
    && (forall k :: k in order <==> k in keys)
    && (forall i, j | 0 <= i < j < |order| :: order[i] != order[j])
  }

  /** resolveIncrements: all increments, then all decrements. */
  function AfterCounters(s: string, vars: Env): (string, Env) {
    var (s1, st1) := Scan(INCREMENT, s, State(vars, 0));
    var (s2, st2) := Scan(DECREMENT, s1, State(st1.vars, 0));
    (s2, st2.vars)
  }

  /** The ReplaceAll loop over the variables, in the given order. */
  function Substitute(s: string, order: seq<string>, vars: Env): string
    requires forall k <- order :: k in vars
  {
    if order == [] then s
    else
      var k := order[|order| - 1];
      Scan(Variable(k, vars[k]), Substitute(s, order[..|order| - 1], vars), State(vars, 0)).0
  }

  /** ReplaceString for one iteration order: the text and the number of random texts drawn so far. */
  function Replaced(s: string, vars: Env, order: seq<string>, draw: nat -> string, used: nat): (string, nat)
    requires forall k <- order :: k in AfterCounters(s, vars).1
  {
    var (s2, vars2) := AfterCounters(s, vars);
    var (text, last) := Scan(Generator(draw), Substitute(s2, order, vars2), State(vars2, used));
    (text, last.drawn)
  }

  // ---- The code: methods over the shared map ----

  class Vars {
    var entries: Env

    constructor (entries: Env)
      ensures this.entries == entries
    {
      this.entries := entries;
    }
  }

  /** The source of the random texts that accepted generators print. */
  class Random {
    const stream: nat -> string
    var used: nat

    constructor (stream: nat -> string)
      ensures this.stream == stream && used == 0
    {
      this.stream := stream;
      used := 0;
    }
  }

  /** One step of the scan, after the text acc. */
  lemma ScanStep(rule: Rule, s: string, st: State, acc: string)
    requires s != ""
    ensures var h := MatchAt(rule, s, st);
            var (len, text, next) := if h.Hit? then (h.len, h.text, h.next) else (1, s[..1], st);
            acc + Scan(rule, s, st).0 == (acc + text) + Scan(rule, s[len..], next).0
            && Scan(rule, s, st).1 == Scan(rule, s[len..], next).1
  {
  }

  /** The number a counter operator starts from. */
  ghost predicate Starts(vars: Env, name: string, cur: int) {
    if name in vars then Reads(vars[name], cur) else cur == 0
  }

  /** One counter operation: an absent counter starts from 0, another must read as a number, with any
      white space around it. The counter becomes the decimal text of the next number, which is the
      result; otherwise what was found is handed back. */
  ghost predicate Bumped(found: string, raw: string, delta: int, before: Env, after: Env, r: string) {
    && (forall name, cur | Around(raw, name) && Starts(before, name, cur) ::
          IsDecimal(r, Wrap64(cur + delta)) && after == before[name := r])
    && (forall name | Around(raw, name) && (forall cur :: !Starts(before, name, cur)) :: r == found && after == before)
  }

  lemma CounterStarts(vars: Env, name: string, cur: int)
    ensures Counter(vars, name) == Some(cur) <==> Starts(vars, name, cur)
  {
    if name in vars { ParseVarIntExactly(vars[name], cur); }
  }

  lemma OnlyName(raw: string, name: string)
    requires name == TrimSpace(raw)
    ensures forall n | Around(raw, n) :: n == name
  {
    forall n | Around(raw, n) ensures n == name { TrimSpaceExactly(raw, n); }
  }

  lemma OnlyStart(vars: Env, name: string, cur: int)
    requires Counter(vars, name) == Some(cur)
    ensures forall c :: Starts(vars, name, c) <==> c == cur
  {
    forall c ensures Starts(vars, name, c) <==> c == cur { CounterStarts(vars, name, c); }
  }

  lemma WritesOnly(found: string, raw: string, delta: int, before: Env, after: Env, r: string, name: string, cur: int)
    requires (forall n | Around(raw, n) :: n == name) && (forall c :: Starts(before, name, c) <==> c == cur)
    requires IsDecimal(r, Wrap64(cur + delta)) && after == before[name := r]
    ensures Bumped(found, raw, delta, before, after, r)
  {
    assert Starts(before, name, cur);
  }

  lemma BumpWrites(found: string, raw: string, delta: int, before: Env, after: Env, r: string, name: string, cur: int)
    requires name == TrimSpace(raw) && Counter(before, name) == Some(cur)
    requires r == FormatInt(Wrap64(cur + delta)) && after == before[name := r]
    ensures Bumped(found, raw, delta, before, after, r)
  {
    OnlyName(raw, name);
    OnlyStart(before, name, cur);
    FormatIntExactly(r, Wrap64(cur + delta));
    WritesOnly(found, raw, delta, before, after, r, name, cur);
  }

  lemma BumpLeaves(found: string, raw: string, delta: int, vars: Env, name: string)
    requires name == TrimSpace(raw) && Counter(vars, name) == None
    ensures Bumped(found, raw, delta, vars, vars, found)
  {
    OnlyName(raw, name);
    forall c ensures !Starts(vars, name, c) { CounterStarts(vars, name, c); }
  }

  /** The callback of replaceIncrements: it writes the counter, or hands back what was found. */
  method Bump(found: string, raw: string, vars: Vars, op: string, delta: int) returns (r: string)
    modifies vars
    ensures Bumped(found, raw, delta, old(vars.entries), vars.entries, r)
    ensures match Advance(Step(op, delta), TrimSpace(raw), State(old(vars.entries), 0))
            case None => r == found && vars.entries == old(vars.entries)
            case Some((text, next)) => (r, State(vars.entries, 0)) == (text, next)
  {
    var name := TrimSpace(raw);
    var cur := Some(0);
    if name in vars.entries { cur := ParseVarInt(vars.entries[name]); }
    if cur == None {
      r := found;
      BumpLeaves(found, raw, delta, vars.entries, name);
    } else {
      vars.entries := vars.entries[name := FormatInt(Wrap64(cur.value + delta))];
      r := vars.entries[name];
      BumpWrites(found, raw, delta, old(vars.entries), vars.entries, r, name, cur.value);
    }
  }

  /** replaceIncrements: the callback writes the map while the string is scanned. */
  method ReplaceIncrements(s: string, vars: Vars, op: string, delta: int) returns (r: string)
    modifies vars
    ensures (r, State(vars.entries, 0)) == Scan(Step(op, delta), s, State(old(vars.entries), 0))
  {
    ghost var rule := Step(op, delta);
    ghost var (all, end) := Scan(rule, s, State(vars.entries, 0));
    r := "";
    var todo := s;
    assert "" + all == all;
    while todo != ""
      invariant r + Scan(rule, todo, State(vars.entries, 0)).0 == all
      invariant Scan(rule, todo, State(vars.entries, 0)).1 == end
      decreases |todo|
    {
      ScanStep(rule, todo, State(vars.entries, 0), r);
      var sub := if HasPrefix(todo, "{{" + op) then CallAt(todo, |op|) else None;
      match sub {
        case None =>
          r, todo := r + todo[..1], todo[1..];
        case Some(raw) =>
          var len := |op| + |raw| + 6;
          ghost var h := MatchAt(rule, todo, State(vars.entries, 0));
          var text := Bump(todo[..len], raw, vars, op, delta);
          assert h == Hit(len, text, State(vars.entries, 0));
          r, todo := r + text, todo[len..];
      }
    }
    assert r + "" == r;
  }

  method ResolveIncrements(s: string, vars: Vars) returns (r: string)
    modifies vars
    ensures (r, vars.entries) == AfterCounters(s, old(vars.entries))
  {
    r := ReplaceIncrements(s, vars, "++", 1);
    r := ReplaceIncrements(r, vars, "--", -1);
  }

  /** ReplaceString; the ghost result is the order in which the map happened to be iterated. */
  method ReplaceString(s: string, vars: Vars, rng: Random) returns (r: string, ghost order: seq<string>)
    modifies vars, rng
    ensures vars.entries == AfterCounters(s, old(vars.entries)).1
    ensures IsOrder(order, vars.entries.Keys)
    ensures (r, rng.used) == Replaced(s, old(vars.entries), order, rng.stream, old(rng.used))
  {
    r := ResolveIncrements(s, vars);
    ghost var s2 := r;
    order := [];
    var left := vars.entries.Keys;
    while left != {}
      invariant left <= vars.entries.Keys && vars.entries == AfterCounters(s, old(vars.entries)).1
      invariant IsOrder(order, vars.entries.Keys - left)
      invariant rng.used == old(rng.used)
      invariant r == Substitute(s2, order, vars.entries)
    {
      var k :| k in left;
      left := left - {k};
      r := Scan(Variable(k, vars.entries[k]), r, State(vars.entries, 0)).0;
      assert (order + [k])[..|order|] == order;
      order := order + [k];
    }
    var (text, last) := Scan(Generator(rng.stream), r, State(vars.entries, rng.used));
    r := text;
    rng.used := last.drawn;
  }

  // ---- The meaning of a template ----

  function ValueOf(g: Segment, vars: Env): Segment {
    if g.Hole? && g.inner in vars then Lit(vars[g.inner]) else g
  }

  /** Simultaneous substitution: each placeholder that is a variable becomes its value. */
  function Simultaneous(segs: seq<Segment>, vars: Env): seq<Segment> {
    seq(|segs|, i requires 0 <= i < |segs| => ValueOf(segs[i], vars))
  }

  function CountersMeaning(segs: seq<Segment>, vars: Env): (r: (seq<Segment>, Env))
    ensures |r.0| == |segs|
  {
    var (g1, st1) := ScanSegments(INCREMENT, segs, State(vars, 0));
    var (g2, st2) := ScanSegments(DECREMENT, g1, State(st1.vars, 0));
    (g2, st2.vars)
  }

  function Meaning(segs: seq<Segment>, vars: Env, draw: nat -> string, used: nat): (r: (seq<Segment>, nat))
    ensures |r.0| == |segs|
  {
    var (g2, vars2) := CountersMeaning(segs, vars);
    var (g3, last) := ScanSegments(Generator(draw), Simultaneous(g2, vars2), State(vars2, used));
    (g3, last.drawn)
  }

  predicate BraceFreeKeys(vars: Env) {
    forall k <- vars :: BraceFree(k)
  }

  /** Variables whose names carry no brace, and whose values carry none where the template uses them. */
  ghost predicate Clean(vars: Env, segs: seq<Segment>) {
    && BraceFreeKeys(vars)
    && (forall x | Hole(x) in segs && x in vars :: BraceFree(vars[x]))
  }

  ghost predicate CleanTexts(rule: Rule) {
    match rule
    case Variable(_, v) => BraceFree(v)
    case Step(_, _) => true
    case Generator(draw) => forall i :: BraceFree(draw(i))
  }

  /** The rule replaces the placeholder. */
  predicate Handles(rule: Rule, x: string, vars: Env) {
    match rule
    case Variable(k, _) => x == k
    case Step(op, _) => var n := OpName(op, x); n.Some? && Counter(vars, n.value).Some?
    case Generator(_) => var c := GeneratorCall(x); c.Some? && Accepts(c.value.0, c.value.1)
  }

  lemma NameBraceFree(op: string, x: string)
    requires BraceFree(x) && OpName(op, x).Some?
    ensures BraceFree(OpName(op, x).value)
  {
    var raw := CallArg(x, |op|).value;
    assert BraceFree(raw);
    forall c | c in TrimSpace(raw) ensures c in raw {
      TrimKeeps(TrimLeft(raw), c);
      TrimKeeps(raw, c);
    }
    forall i | 0 <= i < |TrimSpace(raw)| ensures !IsBrace(TrimSpace(raw)[i]) {
      assert TrimSpace(raw)[i] in raw;
    }
  }

  /** One placeholder: names that count keep counting, other variables keep their value. */
  lemma OnHoleVars(rule: Rule, x: string, st: State, n: string)
    ensures var next := OnHole(rule, x, st).1.vars;
            && (Counter(next, n).Some? <==> Counter(st.vars, n).Some?)
            && (next == st.vars || (rule.Step? && exists name, v | OpName(rule.op, x) == Some(name) ::
                  InInt64(v) && next == st.vars[name := FormatInt(v)]))
  {
    if rule.Step? && OpName(rule.op, x).Some? {
      var name := OpName(rule.op, x).value;
      if Advance(rule, name, st).Some? { AdvanceVars(rule, name, st, n); }
    }
  }

  lemma AdvanceVars(rule: Rule, name: string, st: State, n: string)
    requires rule.Step? && Advance(rule, name, st).Some?
    ensures var next := Advance(rule, name, st).value.1.vars;
            && (Counter(next, n).Some? <==> Counter(st.vars, n).Some?)
            && exists v :: InInt64(v) && next == st.vars[name := FormatInt(v)]
  {
    var v := Wrap64(Counter(st.vars, name).value + rule.delta);
    assert Advance(rule, name, st).value.1.vars == st.vars[name := FormatInt(v)];
    CounterSet(st.vars, name, v, n);
  }

  lemma CounterSet(vars: Env, name: string, v: int, n: string)
    requires InInt64(v)
    ensures Counter(vars[name := FormatInt(v)], n) == if n == name then Some(v) else Counter(vars, n)
  {
    ParseFormatInt(v);
  }

  /** What one rule does to a template it meets: exactly the handled placeholders go, and the
      result is again a template over clean variables. */
  ghost predicate Rewrites(rule: Rule, segs: seq<Segment>, st: State, out: seq<Segment>, last: State,
                           all: seq<Segment>) {
    && WellFormed(out) && Clean(last.vars, all)
    && (forall x :: Hole(x) in out <==> Hole(x) in segs && !Handles(rule, x, st.vars))
    && (forall n :: Counter(last.vars, n).Some? <==> Counter(st.vars, n).Some?)
  }

  lemma OnHoleClean(rule: Rule, x: string, st: State, all: seq<Segment>)
    requires BraceFree(x) && Clean(st.vars, all)
    ensures Clean(OnHole(rule, x, st).1.vars, all)
  {
    OnHoleVars(rule, x, st, "");
    if rule.Step? && OpName(rule.op, x).Some? { NameBraceFree(rule.op, x); }
  }

  lemma OnHoleRewrites(rule: Rule, x: string, st: State, all: seq<Segment>)
    requires WellFormedSegment(Hole(x)) && CleanTexts(rule) && Clean(st.vars, all)
    ensures var (g, next) := OnHole(rule, x, st); Rewrites(rule, [Hole(x)], st, [g], next, all)
  {
    var (g, next) := OnHole(rule, x, st);
    OnHoleClean(rule, x, st, all);
    forall n ensures Counter(next.vars, n).Some? <==> Counter(st.vars, n).Some? {
      OnHoleVars(rule, x, st, n);
    }
    assert WellFormedSegment(g);
  }

  lemma OnSegmentRewrites(rule: Rule, g: Segment, st: State, all: seq<Segment>)
    requires WellFormedSegment(g) && CleanTexts(rule) && Clean(st.vars, all)
    ensures var (g', next) := OnSegment(rule, g, st); Rewrites(rule, [g], st, [g'], next, all)
  {
    if g.Hole? { OnHoleRewrites(rule, g.inner, st, all); }
  }

  lemma {:induction false} ScanSegmentsRewrites(rule: Rule, segs: seq<Segment>, st: State, all: seq<Segment>)
    requires WellFormed(segs) && CleanTexts(rule) && Clean(st.vars, all)
    ensures var (out, last) := ScanSegments(rule, segs, st); Rewrites(rule, segs, st, out, last, all)
  {
    if segs != [] {
      var (g, next) := OnSegment(rule, segs[0], st);
      OnSegmentRewrites(rule, segs[0], st, all);
      ScanSegmentsRewrites(rule, segs[1..], next, all);
      var (out, last) := ScanSegments(rule, segs[1..], next);
      RewritesAppend(rule, segs[0], segs[1..], st, g, next, out, last, all);
      assert [segs[0]] + segs[1..] == segs;
    }
  }

  lemma RewritesAppend(rule: Rule, g: Segment, segs: seq<Segment>, st: State, g': Segment, next: State,
                       out: seq<Segment>, last: State, all: seq<Segment>)
    requires Rewrites(rule, [g], st, [g'], next, all) && Rewrites(rule, segs, next, out, last, all)
    ensures Rewrites(rule, [g] + segs, st, [g'] + out, last, all)
  {
    assert WellFormedSegment([g'][0]);
    forall x ensures Handles(rule, x, st.vars) <==> Handles(rule, x, next.vars) {
    }
    forall x ensures Hole(x) in [g'] + out <==> Hole(x) in [g] + segs && !Handles(rule, x, st.vars) {
      assert Hole(x) in [g'] <==> Hole(x) in [g] && !Handles(rule, x, st.vars);
    }
  }
}
