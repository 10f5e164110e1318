/** When exactly the order of the variables shows in the text of ReplaceString. */
module TemplateOrder {
  import opened Text
  import opened TextLaws
  import opened Rewriting
  import opened Template
  import opened TemplateLaws
  import Counters
  import Operators

  // ---- Values read as templates ----

  /** Names without braces, and values that are templates. */
  ghost predicate Readable(vars: Env) {
    forall k <- vars :: BraceFree(k) && IsTemplate(vars[k])
  }

  function Reading(g: Segment, vars: Env): seq<Segment> {
    if g.Hole? && g.inner in vars then Parse(vars[g.inner]) else [g]
  }

  /** Each placeholder that is a variable becomes its value, read as literals and placeholders. */
  function Expand(segs: seq<Segment>, vars: Env): seq<Segment> {
    if segs == [] then [] else Reading(segs[0], vars) + Expand(segs[1..], vars)
  }

  lemma {:induction false} PrintAppend(a: seq<Segment>, b: seq<Segment>)
    ensures Print(a + b) == Print(a) + Print(b)
  {
    if a == [] {
      assert a + b == b;
    } else {
      assert (a + b)[1..] == a[1..] + b;
      PrintAppend(a[1..], b);
    }
  }

  lemma {:induction false} ExpandAppend(a: seq<Segment>, b: seq<Segment>, vars: Env)
    ensures Expand(a + b, vars) == Expand(a, vars) + Expand(b, vars)
  {
    if a == [] {
      assert a + b == b;
    } else {
      assert (a + b)[1..] == a[1..] + b;
      ExpandAppend(a[1..], b, vars);
    }
  }

  lemma {:induction false} ExpandPrint(segs: seq<Segment>, vars: Env)
    requires WellFormed(segs) && Readable(vars)
    ensures WellFormed(Expand(segs, vars)) && Print(Expand(segs, vars)) == Print(Simultaneous(segs, vars))
  {
    if segs == [] {
      assert Simultaneous(segs, vars) == [];
    } else {
      var g := segs[0];
      assert Simultaneous(segs, vars) == [ValueOf(g, vars)] + Simultaneous(segs[1..], vars);
      ExpandPrint(segs[1..], vars);
      PrintAppend(Reading(g, vars), Expand(segs[1..], vars));
      if g.Hole? && g.inner in vars { PrintParse(vars[g.inner]); } else { assert Print([g]) == Show(g) + Print([]); }
    }
  }

  /** One ReplaceAll call, read as templates. */
  lemma ReplaceAllExpands(segs: seq<Segment>, k: string, v: string, st: State)
    requires WellFormed(segs) && BraceFree(k) && IsTemplate(v)
    ensures Scan(Variable(k, v), Print(segs), st).0 == Print(Expand(segs, map[k := v]))
    ensures WellFormed(Expand(segs, map[k := v]))
  {
    ScanPrint(Variable(k, v), segs, st);
    OneVariable(k, v, segs, st);
    ExpandPrint(segs, map[k := v]);
  }

  /** Nothing happens to segments in which the variable does not occur, or has itself as value. */
  lemma {:induction false} ExpandIdle(segs: seq<Segment>, k: string, v: string)
    requires Hole(k) in segs ==> Parse(v) == [Hole(k)]
    ensures Expand(segs, map[k := v]) == segs
  {
    if segs != [] {
      assert segs[0] in segs && forall g :: g in segs[1..] ==> g in segs;
      ExpandIdle(segs[1..], k, v);
      assert segs == [segs[0]] + segs[1..];
    }
  }

  lemma MentionReads(b: string)
    requires WellFormedSegment(Hole(b))
    ensures Parse(Show(Hole(b))) == [Hole(b)] && IsTemplate(Show(Hole(b)))
  {
    ParsePrint([Hole(b)]);
    OnePrinted(Hole(b));
    assert Fine([Hole(b)]) == [Hole(b)] + Fine([]);
  }

  lemma OnePrinted(g: Segment)
    ensures Print([g]) == Show(g)
  {
    assert Print([g]) == Show(g) + Print([]);
  }

  lemma TextHasNoHole(v: string)
    requires BraceFree(v)
    ensures IsTemplate(v) && forall x :: Hole(x) !in Parse(v)
  {
    assert Print([Lit(v)]) == v + Print([]) == v;
    ParsePrint([Lit(v)]);
    GuardOnPrint([Lit(v)]);
    PrintParse(v);
    GuardOnPrint(Parse(v));
  }

  // ---- Orders that do not show ----

  /** In the values of the variables used by segs, other variables stand only for themselves. */
  ghost predicate HarmlessIn(segs: seq<Segment>, vars: Env) {
    forall a, b | Hole(a) in segs && a in vars && b in vars && a != b && Hole(b) in Parse(vars[a]) ::
      vars[b] == Show(Hole(b))
  }

  ghost predicate Harmless(vars: Env) {
    forall a, b | a in vars && b in vars && a != b && Hole(b) in Parse(vars[a]) :: vars[b] == Show(Hole(b))
  }

  /** One more variable: the values already put in do not mention it, or do not mind. */
  lemma {:induction false} ExpandTwice(segs: seq<Segment>, done: Env, k: string, vars: Env)
    requires Readable(vars) && HarmlessIn(segs, vars) && k in vars && k !in done
    requires forall x <- done :: x in vars && done[x] == vars[x]
    ensures Expand(Expand(segs, done), map[k := vars[k]]) == Expand(segs, done[k := vars[k]])
  {
    if segs != [] {
      var g, one := segs[0], map[k := vars[k]];
      assert g in segs && forall h :: h in segs[1..] ==> h in segs;
      ExpandTwice(segs[1..], done, k, vars);
      ExpandAppend(Reading(g, done), Expand(segs[1..], done), one);
      ReadingTwice(g, done, k, vars);
    }
  }

  lemma ReadingTwice(g: Segment, done: Env, k: string, vars: Env)
    requires Readable(vars) && HarmlessIn([g], vars) && k in vars && k !in done
    requires forall x <- done :: x in vars && done[x] == vars[x]
    ensures Expand(Reading(g, done), map[k := vars[k]]) == Reading(g, done[k := vars[k]])
  {
    if g.Hole? && g.inner in done {
      var value := Parse(vars[g.inner]);
      if Hole(k) in value {
        assert g in [g] && vars[k] == Show(Hole(k)) && WellFormedSegment(Hole(k));
        MentionReads(k);
      }
      ExpandIdle(value, k, vars[k]);
    } else {
      assert Expand([g], map[k := vars[k]]) == Reading(g, map[k := vars[k]]) + Expand([], map[k := vars[k]]);
    }
  }

  ghost predicate Distinct(order: seq<string>) {
    forall i, j | 0 <= i < j < |order| :: order[i] != order[j]
  }

  lemma DistinctLast(order: seq<string>, init: seq<string>, k: string)
    requires Distinct(order) && order == init + [k]
    ensures Distinct(init) && k !in init
  {
    assert order[|init|] == k && forall i | 0 <= i < |init| :: order[i] == init[i];
  }

  /** The loop of ReplaceAll calls in any order puts in the values once. */
  lemma {:induction false} SubstituteExpands(segs: seq<Segment>, order: seq<string>, vars: Env)
    requires WellFormed(segs) && Readable(vars) && HarmlessIn(segs, vars)
    requires (forall k <- order :: k in vars) && Distinct(order)
    ensures Substitute(Print(segs), order, vars) == Print(Expand(segs, Listed(order, vars)))
  {
    if order == [] {
      ExpandPrint(segs, map[]);
      assert Simultaneous(segs, map[]) == segs && Listed([], vars) == map[];
    } else {
      var init, k := order[..|order| - 1], order[|order| - 1];
      assert order == init + [k];
      DistinctLast(order, init, k);
      SubstituteExpands(segs, init, vars);
      ListedMore(init, k, vars);
      ExpandNext(segs, Listed(init, vars), k, vars);
    }
  }

  lemma ListedMore(init: seq<string>, k: string, vars: Env)
    requires (forall x <- init :: x in vars) && k in vars
    ensures Listed(init + [k], vars) == Listed(init, vars)[k := vars[k]]
  {
  }

  lemma ExpandNext(segs: seq<Segment>, done: Env, k: string, vars: Env)
    requires WellFormed(segs) && Readable(vars) && HarmlessIn(segs, vars)
    requires (forall x <- done :: x in vars && done[x] == vars[x]) && k in vars && k !in done
    ensures Scan(Variable(k, vars[k]), Print(Expand(segs, done)), State(vars, 0)).0 ==
            Print(Expand(segs, done[k := vars[k]]))
  {
    ExpandPrint(segs, done);
    ReplaceAllExpands(Expand(segs, done), k, vars[k], State(vars, 0));
    ExpandTwice(segs, done, k, vars);
  }

  /** A template whose values are harmless has one text, whatever the order of the variables. */
  lemma HarmlessOrderFree(segs: seq<Segment>, order: seq<string>, vars: Env)
    requires WellFormed(segs) && Readable(vars) && HarmlessIn(segs, vars) && IsOrder(order, vars.Keys)
    ensures Substitute(Print(segs), order, vars) == Print(Expand(segs, vars))
  {
    SubstituteExpands(segs, order, vars);
    assert Listed(order, vars) == vars;
  }

  // ---- Orders that show ----

  /** Putting in another text of the variable shows: first by the length, then by the letters. */
  lemma {:induction false} ExpandLonger(segs: seq<Segment>, b: string, v: string)
    ensures |v| >= |Show(Hole(b))| ==> |Print(Expand(segs, map[b := v]))| >= |Print(segs)|
    ensures |v| <= |Show(Hole(b))| ==> |Print(Expand(segs, map[b := v]))| <= |Print(segs)|
    ensures Hole(b) in segs && |v| != |Show(Hole(b))| ==> |Print(Expand(segs, map[b := v]))| != |Print(segs)|
  {
    if segs != [] {
      ExpandLonger(segs[1..], b, v);
      ExpandHead(segs, b, v);
    }
  }

  lemma ExpandHead(segs: seq<Segment>, b: string, v: string)
    requires segs != []
    ensures Print(Expand(segs, map[b := v])) ==
            (if segs[0] == Hole(b) then v else Show(segs[0])) + Print(Expand(segs[1..], map[b := v]))
    ensures Hole(b) in segs ==> segs[0] == Hole(b) || Hole(b) in segs[1..]
  {
    var g := segs[0];
    PrintAppend(Reading(g, map[b := v]), Expand(segs[1..], map[b := v]));
    if g == Hole(b) { PrintParse(v); } else { assert Print([g]) == Show(g) + Print([]); }
  }

  lemma {:induction false} ExpandShows(segs: seq<Segment>, b: string, v: string)
    requires Hole(b) in segs && v != Show(Hole(b))
    ensures Print(Expand(segs, map[b := v])) != Print(segs)
  {
    ExpandLonger(segs, b, v);
    if |v| == |Show(Hole(b))| {
      ExpandHead(segs, b, v);
      var head := if segs[0] == Hole(b) then v else Show(segs[0]);
      var rest, rest' := Print(segs[1..]), Print(Expand(segs[1..], map[b := v]));
      assert (head + rest')[..|head|] == head && (Show(segs[0]) + rest)[..|head|] == Show(segs[0]);
      assert (head + rest')[|head|..] == rest' && (Show(segs[0]) + rest)[|head|..] == rest;
      if segs[0] != Hole(b) { ExpandShows(segs[1..], b, v); }
    }
  }

  ghost function Enumerate(keys: set<string>): (order: seq<string>)
    ensures IsOrder(order, keys)
  {
    if keys == {} then []
    else
      var k :| k in keys;
      var rest := Enumerate(keys - {k});
      rest + [k]
  }

  /** The orders that end in a and b. */
  ghost function EndingIn(a: string, b: string, keys: set<string>): (order: seq<string>)
    requires a in keys && b in keys && a != b
    ensures IsOrder(order, keys)
  {
    Enumerate(keys - {a, b}) + [a, b]
  }

  lemma {:induction false} SubstituteIdle(segs: seq<Segment>, order: seq<string>, vars: Env)
    requires WellFormed(segs) && Readable(vars)
    requires forall k <- order :: k in vars && Hole(k) !in segs
    ensures Substitute(Print(segs), order, vars) == Print(segs)
  {
    if order != [] {
      var n := |order| - 1;
      SubstituteIdle(segs, order[..n], vars);
      ReplaceAllExpands(segs, order[n], vars[order[n]], State(vars, 0));
      ExpandIdle(segs, order[n], vars[order[n]]);
    }
  }

  lemma SubstituteLastTwo(s: string, order: seq<string>, a: string, b: string, vars: Env)
    requires (forall k <- order :: k in vars) && a in vars && b in vars
    ensures var s1 := Substitute(s, order, vars);
            Substitute(s, order + [a, b], vars) ==
            Scan(Variable(b, vars[b]), Scan(Variable(a, vars[a]), s1, State(vars, 0)).0, State(vars, 0)).0
  {
    assert (order + [a, b])[..|order| + 1] == order + [a] && (order + [a])[..|order|] == order;
    assert Substitute(s, order + [a], vars) == Scan(Variable(a, vars[a]), Substitute(s, order, vars), State(vars, 0)).0;
  }

  /** If the value of a mentions b, and b is not merely itself, the template {{a}}, after any text
      without braces, comes out differently when b comes after a than when a comes after b. */
  lemma DirtyValuesDependOnOrder(t: string, a: string, b: string, vars: Env)
    requires BraceFree(t) && Readable(vars) && WellFormedSegment(Hole(a)) && a in vars && b in vars && a != b
    requires Hole(b) in Parse(vars[a]) && vars[b] != Show(Hole(b))
    ensures Substitute(t + Show(Hole(a)), EndingIn(b, a, vars.Keys), vars) == t + vars[a]
    ensures Substitute(t + Show(Hole(a)), EndingIn(a, b, vars.Keys), vars) != t + vars[a]
  {
    var (segs, st) := ([Lit(t), Hole(a)], State(vars, 0));
    var s, rest, value := t + Show(Hole(a)), Enumerate(vars.Keys - {a, b}), [Lit(t)] + Parse(vars[a]);
    TextThen(t, a);
    assert vars.Keys - {b, a} == vars.Keys - {a, b};
    SubstituteIdle(segs, rest, vars);
    SubstituteLastTwo(s, rest, a, b, vars);
    SubstituteLastTwo(s, rest, b, a, vars);
    ReplaceAllExpands(segs, b, vars[b], st);
    ExpandIdle(segs, b, vars[b]);
    ReplaceAllExpands(segs, a, vars[a], st);
    TextThenReading(t, a, vars[a]);
    ReplaceAllExpands(value, b, vars[b], st);
    ExpandShows(value, b, vars[b]);
  }

  lemma TextThen(t: string, a: string)
    ensures Print([Lit(t), Hole(a)]) == t + Show(Hole(a))
  {
    assert [Lit(t), Hole(a)][1..] == [Hole(a)];
    OnePrinted(Hole(a));
  }

  lemma TextThenReading(t: string, a: string, v: string)
    ensures Expand([Lit(t), Hole(a)], map[a := v]) == [Lit(t)] + Parse(v)
    ensures Print([Lit(t)] + Parse(v)) == t + v
  {
    var vars := map[a := v];
    assert [Lit(t), Hole(a)][1..] == [Hole(a)];
    assert Expand([Hole(a)], vars) == Parse(v) + Expand([], vars) == Parse(v);
    assert ([Lit(t)] + Parse(v))[1..] == Parse(v);
    PrintParse(v);
  }

  // ---- Without counters and generators ReplaceString is that loop ----

  predicate PlainHole(x: string) {
    && OpName("++", x).None? && OpName("--", x).None?
    && (GeneratorCall(x).Some? ==> !Accepts(GeneratorCall(x).value.0, GeneratorCall(x).value.1))
  }

  /** No counter operator and no accepted generator among the placeholders. */
  ghost predicate Plain(segs: seq<Segment>) {
    forall x | Hole(x) in segs :: PlainHole(x)
  }

  /** Values that are templates without counters and generators, under names without braces. */
  ghost predicate PlainValues(vars: Env) {
    Readable(vars) && forall k <- vars :: Plain(Parse(vars[k]))
  }

  lemma {:induction false} NothingHandled(rule: Rule, segs: seq<Segment>, st: State)
    requires forall x | Hole(x) in segs :: !Handles(rule, x, st.vars)
    ensures ScanSegments(rule, segs, st) == (segs, st)
  {
    if segs != [] {
      UnhandledSegment(rule, segs[0], st, segs);
      NothingHandled(rule, segs[1..], st);
      assert segs == [segs[0]] + segs[1..];
    }
  }

  lemma UnhandledSegment(rule: Rule, g: Segment, st: State, segs: seq<Segment>)
    requires g in segs && forall x | Hole(x) in segs :: !Handles(rule, x, st.vars)
    ensures OnSegment(rule, g, st) == (g, st)
  {
  }

  lemma {:induction false} ExpandHoles(segs: seq<Segment>, vars: Env, x: string)
    requires Hole(x) in Expand(segs, vars)
    ensures Hole(x) in segs || exists k <- vars :: Hole(x) in Parse(vars[k])
  {
    if Hole(x) in Reading(segs[0], vars) {
      assert segs[0] in segs;
    } else {
      ExpandHoles(segs[1..], vars, x);
      assert forall g :: g in segs[1..] ==> g in segs;
    }
  }

  lemma ExpandPlain(segs: seq<Segment>, vars: Env)
    requires Plain(segs) && forall k <- vars :: Plain(Parse(vars[k]))
    ensures Plain(Expand(segs, vars))
  {
    forall x | Hole(x) in Expand(segs, vars) ensures PlainHole(x) { ExpandHoles(segs, vars, x); }
  }

  lemma PlainCounters(s: string, vars: Env)
    requires IsTemplate(s) && Plain(Parse(s))
    ensures AfterCounters(s, vars) == (s, vars)
  {
    Counters.CountersOnStrings(s, vars);
    NothingHandled(INCREMENT, Parse(s), State(vars, 0));
    NothingHandled(DECREMENT, Parse(s), State(vars, 0));
    PrintParse(s);
  }

  lemma {:induction false} SubstitutePlain(segs: seq<Segment>, order: seq<string>, vars: Env)
    returns (out: seq<Segment>)
    requires WellFormed(segs) && Plain(segs) && PlainValues(vars) && forall k <- order :: k in vars
    ensures WellFormed(out) && Plain(out) && Substitute(Print(segs), order, vars) == Print(out)
  {
    if order == [] {
      out := segs;
    } else {
      var k := order[|order| - 1];
      var before := SubstitutePlain(segs, order[..|order| - 1], vars);
      ReplaceAllExpands(before, k, vars[k], State(vars, 0));
      ExpandPlain(before, map[k := vars[k]]);
      out := Expand(before, map[k := vars[k]]);
    }
  }

  /** ReplaceString on a plain template over plain values: only the variables are put in. */
  lemma PlainReplaced(s: string, vars: Env, order: seq<string>, draw: nat -> string, used: nat)
    requires IsTemplate(s) && Plain(Parse(s)) && PlainValues(vars) && IsOrder(order, vars.Keys)
    ensures AfterCounters(s, vars).1 == vars
    ensures Replaced(s, vars, order, draw, used) == (Substitute(s, order, vars), used)
  {
    PlainCounters(s, vars);
    PrintParse(s);
    var out := SubstitutePlain(Parse(s), order, vars);
    ScanPrint(Generator(draw), out, State(vars, used));
    NothingHandled(Generator(draw), out, State(vars, used));
  }

  // ---- The exact condition for the loop ----

  /** The loop of ReplaceAll calls gives every template the same text in all orders. */
  ghost predicate OrderNeverShows(vars: Env) {
    forall s, o1, o2 | IsTemplate(s) && IsOrder(o1, vars.Keys) && IsOrder(o2, vars.Keys) ::
      Substitute(s, o1, vars) == Substitute(s, o2, vars)
  }

  /** Exactly when the loop is order-free: no value mentions another variable, except one whose value
      is its own mention. */
  lemma OrderFreeExactly(vars: Env)
    requires forall k <- vars :: WellFormedSegment(Hole(k)) && IsTemplate(vars[k])
    ensures OrderNeverShows(vars) <==> Harmless(vars)
  {
    if Harmless(vars) {
      forall s, o1, o2 | IsTemplate(s) && IsOrder(o1, vars.Keys) && IsOrder(o2, vars.Keys)
        ensures Substitute(s, o1, vars) == Substitute(s, o2, vars)
      {
        PrintParse(s);
        HarmlessOrderFree(Parse(s), o1, vars);
        HarmlessOrderFree(Parse(s), o2, vars);
      }
    } else {
      var a, b :| a in vars && b in vars && a != b && Hole(b) in Parse(vars[a]) && vars[b] != Show(Hole(b));
      LoopShowsOrder(a, b, vars);
    }
  }

  lemma LoopShowsOrder(a: string, b: string, vars: Env)
    requires Readable(vars) && WellFormedSegment(Hole(a)) && a in vars && b in vars && a != b
    requires Hole(b) in Parse(vars[a]) && vars[b] != Show(Hole(b))
    ensures !OrderNeverShows(vars)
  {
    var s := Show(Hole(a));
    MentionReads(a);
    assert "" + s == s;
    DirtyValuesDependOnOrder("", a, b, vars);
    assert Substitute(s, EndingIn(b, a, vars.Keys), vars) != Substitute(s, EndingIn(a, b, vars.Keys), vars);
  }

  // ---- The exact condition for ReplaceString ----

  /** ReplaceString over variables that are harmless after the counter passes. */
  lemma HarmlessReplaced(s: string, vars: Env, order: seq<string>, draw: nat -> string, used: nat)
    requires IsTemplate(s)
    requires var after := AfterCounters(s, vars).1;
             Readable(after) && HarmlessIn(CountersMeaning(Parse(s), vars).0, after) && IsOrder(order, after.Keys)
    ensures var (g, after) := CountersMeaning(Parse(s), vars);
            var (out, last) := ScanSegments(Generator(draw), Expand(g, after), State(after, used));
            Replaced(s, vars, order, draw, used) == (Print(out), last.drawn)
  {
    Counters.CountersOnStrings(s, vars);
    var (g, after) := CountersMeaning(Parse(s), vars);
    Counters.StepWellFormed("++", 1, Parse(s), State(vars, 0));
    var (g1, st1) := ScanSegments(INCREMENT, Parse(s), State(vars, 0));
    Counters.StepWellFormed("--", -1, g1, State(st1.vars, 0));
    HarmlessOrderFree(g, order, after);
    ExpandPrint(g, after);
    ScanPrint(Generator(draw), Expand(g, after), State(after, used));
  }

  /** Some counter operator names b: its argument can be written, and trimming leaves it. */
  predicate Nameable(b: string) {
    ')' !in b && TrimSpace(b) == b
  }

  lemma TrimTwice(s: string)
    ensures TrimSpace(TrimSpace(s)) == TrimSpace(s)
  {
    var t := TrimSpace(s);
    var pre, post := TrimCuts(s, t);
    assert t == "" + t + "";
    CutsTrim(t, "", t, "");
  }

  /** Exactly those: whether the operator counts up or down. */
  lemma NameableExactly(op: string, b: string)
    requires BraceFree(op) && '(' !in op && BraceFree(b)
    ensures Nameable(b) <==> exists x :: WellFormedSegment(Hole(x)) && OpName(op, x) == Some(b)
  {
    if Nameable(b) {
      NamedBy(op, b);
    } else {
      forall x | OpName(op, x).Some? ensures Nameable(OpName(op, x).value) { NamesAreNameable(op, x); }
    }
  }

  lemma NamesAreNameable(op: string, x: string)
    requires OpName(op, x).Some?
    ensures Nameable(OpName(op, x).value)
  {
    var raw := CallArg(x, |op|).value;
    TrimTwice(raw);
    if ')' in TrimSpace(raw) {
      TrimKeeps(TrimLeft(raw), ')');
      TrimKeeps(raw, ')');
    }
  }

  function OpOn(op: string, b: string): string {
    op + "(" + b + ")"
  }

  lemma NamedBy(op: string, b: string)
    requires BraceFree(op) && '(' !in op && BraceFree(b) && Nameable(b)
    ensures WellFormedSegment(Hole(OpOn(op, b))) && OpName(op, OpOn(op, b)) == Some(b)
  {
    OperandOf(op, b);
    OpOnCloses(op, b);
  }

  lemma OperandOf(op: string, b: string)
    requires ')' !in b
    ensures HasPrefix(OpOn(op, b), op) && CallArg(OpOn(op, b), |op|) == Some(b)
  {
    var x := OpOn(op, b);
    assert x == op + ("(" + b + ")");
    Operators.Behind(x, op, "(" + b + ")");
    Operators.CallArgExactly(x, |op|, b);
  }

  lemma OpOnCloses(op: string, b: string)
    requires BraceFree(op) && BraceFree(b)
    ensures WellFormedSegment(Hole(OpOn(op, b)))
  {
    var x := OpOn(op, b);
    forall i | 0 <= i < |x| && x[i] == '(' ensures ')' in x[i..] { assert x[i..][|x| - 1 - i] == ')'; }
    forall i | 0 <= i < |x| ensures !IsBrace(x[i]) {
      if i < |op| { assert x[i] == op[i]; } else if |op| < i < |x| - 1 { assert x[i] == b[i - |op| - 1]; }
    }
  }

  /** What the counter passes of a template make of the variables: integers under names that its
      operators give, where there was an integer or nothing. */
  ghost predicate Written(before: Env, after: Env) {
    && (forall k <- before :: k in after)
    && (forall k <- after :: (k in before && after[k] == before[k])
                             || (BraceFree(k) && BraceFree(after[k]) && Counter(before, k).Some? && Nameable(k)))
  }

  lemma SegmentWrites(rule: Rule, g: Segment, st: State)
    requires rule.Step? && WellFormedSegment(g)
    ensures Written(st.vars, OnSegment(rule, g, st).1.vars)
  {
    if g.Hole? && OpName(rule.op, g.inner).Some? {
      OnHoleVars(rule, g.inner, st, "");
      NamesAreNameable(rule.op, g.inner);
      NameBraceFree(rule.op, g.inner);
    }
  }

  lemma {:induction false} PassWrites(rule: Rule, segs: seq<Segment>, st: State)
    requires rule.Step? && WellFormed(segs)
    ensures Written(st.vars, ScanSegments(rule, segs, st).1.vars)
  {
    if segs != [] {
      var next := OnSegment(rule, segs[0], st).1;
      SegmentWrites(rule, segs[0], st);
      PassWrites(rule, segs[1..], next);
      forall n ensures Counter(next.vars, n).Some? <==> Counter(st.vars, n).Some? {
        if segs[0].Hole? { OnHoleVars(rule, segs[0].inner, st, n); }
      }
    }
  }

  lemma CountersWrite(s: string, vars: Env)
    requires IsTemplate(s)
    ensures Written(vars, AfterCounters(s, vars).1)
  {
    Counters.CountersOnStrings(s, vars);
    Counters.StepWellFormed("++", 1, Parse(s), State(vars, 0));
    var (g1, st1) := ScanSegments(INCREMENT, Parse(s), State(vars, 0));
    PassWrites(INCREMENT, Parse(s), State(vars, 0));
    PassWrites(DECREMENT, g1, State(st1.vars, 0));
    PassKeepsCounters(INCREMENT, Parse(s), State(vars, 0));
  }

  lemma {:induction false} PassKeepsCounters(rule: Rule, segs: seq<Segment>, st: State)
    requires rule.Step?
    ensures forall n :: Counter(ScanSegments(rule, segs, st).1.vars, n).Some? <==> Counter(st.vars, n).Some?
  {
    if segs != [] {
      var next := OnSegment(rule, segs[0], st).1;
      PassKeepsCounters(rule, segs[1..], next);
      forall n ensures Counter(next.vars, n).Some? <==> Counter(st.vars, n).Some? {
        if segs[0].Hole? { OnHoleVars(rule, segs[0].inner, st, n); }
      }
    }
  }

  /** A mention of b always stands for itself: the value of b is just that, or b is absent and no counter
      operator could create it. */
  predicate StandsForItself(b: string, vars: Env) {
    if b in vars then vars[b] == Show(Hole(b)) else !Nameable(b)
  }

  /** Readable before the call. A value mentions no other variable, except one whose value is its own
      mention, and no absent name that a counter operator could create. */
  ghost predicate Inert(vars: Env) {
    forall a, b | a in vars && b != a && Hole(b) in Parse(vars[a]) :: StandsForItself(b, vars)
  }

  lemma MentionIsNoInteger(b: string)
    ensures ParseVarInt(Show(Hole(b))) == None
  {
    var s := Show(Hole(b));
    assert s[0] == '{' && s[|s| - 1] == '}';
    assert TrimLeft(s) == s && TrimRight(s) == s;
  }

  lemma WrittenReads(vars: Env, after: Env)
    requires (forall k <- vars :: BraceFree(k) && IsTemplate(vars[k])) && Written(vars, after)
    ensures Readable(after)
  {
    forall k <- after ensures BraceFree(k) && IsTemplate(after[k]) {
      if BraceFree(after[k]) { TextHasNoHole(after[k]); }
    }
  }

  lemma InertAt(vars: Env, a: string, b: string)
    requires Inert(vars) && a in vars && a != b && Hole(b) in Parse(vars[a])
    ensures StandsForItself(b, vars)
  {
  }

  lemma WrittenAt(before: Env, after: Env, k: string)
    requires Written(before, after) && k in after
    ensures (k in before && after[k] == before[k])
            || (BraceFree(after[k]) && Counter(before, k).Some? && Nameable(k))
  {
  }

  lemma MentionStays(vars: Env, after: Env, a: string, b: string)
    requires Inert(vars) && Written(vars, after)
    requires a in after && b in after && a != b && Hole(b) in Parse(after[a])
    ensures after[b] == Show(Hole(b))
  {
    WrittenAt(vars, after, a);
    WrittenAt(vars, after, b);
    MentionHasBraces(after[a], b);
    InertAt(vars, a, b);
    CountedIsNoMention(vars, b);
  }

  lemma MentionHasBraces(v: string, b: string)
    requires Hole(b) in Parse(v)
    ensures !BraceFree(v)
  {
    if BraceFree(v) { TextHasNoHole(v); }
  }

  lemma CountedIsNoMention(vars: Env, b: string)
    ensures b in vars && vars[b] == Show(Hole(b)) ==> Counter(vars, b) == None
  {
    MentionIsNoInteger(b);
  }

  lemma InertStays(vars: Env, after: Env)
    requires (forall k <- vars :: BraceFree(k) && IsTemplate(vars[k])) && Inert(vars) && Written(vars, after)
    ensures Readable(after) && Harmless(after)
  {
    WrittenReads(vars, after);
    forall a, b | a in after && b in after && a != b && Hole(b) in Parse(after[a]) ensures after[b] == Show(Hole(b)) {
      MentionStays(vars, after, a, b);
    }
  }

  /** A template that creates b and then uses a. */
  function CreateThenUse(a: string, b: string): string {
    Show(Hole(OpOn("++", b))) + Show(Hole(a))
  }

  lemma FirstCount(x: string, b: string, vars: Env, t: string)
    requires OpName("++", x) == Some(b) && b !in vars && t == FormatInt(1)
    ensures OnSegment(INCREMENT, Hole(x), State(vars, 0)) == (Lit(t), State(vars[b := t], 0))
  {
    assert Counter(vars, b) == Some(0) && Wrap64(0 + 1) == 1;
    assert Advance(INCREMENT, b, State(vars, 0)) == Some((t, State(vars[b := t], 0)));
  }

  lemma CreatesThenUses(x: string, a: string, b: string, vars: Env, t: string)
    requires OpName("++", x) == Some(b) && b !in vars && t == FormatInt(1) && PlainHole(a)
    ensures CountersMeaning([Hole(x), Hole(a)], vars) == ([Lit(t), Hole(a)], vars[b := t])
  {
    var segs, after := [Hole(x), Hole(a)], State(vars[b := t], 0);
    FirstCount(x, b, vars, t);
    assert segs[1..] == [Hole(a)];
    NothingHandled(INCREMENT, [Hole(a)], after);
    assert ScanSegments(INCREMENT, segs, State(vars, 0)) == ([Lit(t)] + [Hole(a)], after);
    NothingHandled(DECREMENT, [Lit(t), Hole(a)], after);
  }

  lemma CreateThenUseCounts(a: string, b: string, vars: Env, t: string)
    requires WellFormedSegment(Hole(a)) && PlainHole(a) && BraceFree(b) && Nameable(b) && b !in vars
    requires t == FormatInt(1)
    ensures IsTemplate(CreateThenUse(a, b))
    ensures AfterCounters(CreateThenUse(a, b), vars) == (t + Show(Hole(a)), vars[b := t])
  {
    var x := OpOn("++", b);
    NamedBy("++", b);
    TwoHoles(x, a);
    ParsePrint([Hole(x), Hole(a)]);
    CreatesThenUses(x, a, b, vars, t);
    Counters.CountersOnStrings(CreateThenUse(a, b), vars);
    TextThen(t, a);
  }

  lemma TwoHoles(x: string, a: string)
    ensures Print([Hole(x), Hole(a)]) == Show(Hole(x)) + Show(Hole(a))
    ensures Fine([Hole(x), Hole(a)]) == [Hole(x), Hole(a)]
  {
    assert [Hole(x), Hole(a)][1..] == [Hole(a)];
    OnePrinted(Hole(a));
    assert Fine([Hole(a)]) == [Hole(a)] + Fine([]);
  }

  /** The two orders of ReplaceString show: by a variable mentioned in a value, or by one that the
      template creates although it is mentioned in a value. */
  lemma MentionShowsOrder(a: string, b: string, vars: Env, draw: nat -> string, used: nat)
    returns (s: string, o1: seq<string>, o2: seq<string>)
    requires PlainValues(vars) && a in vars && WellFormedSegment(Hole(a)) && PlainHole(a) && b != a
    requires Hole(b) in Parse(vars[a]) && (if b in vars then vars[b] != Show(Hole(b)) else Nameable(b))
    ensures IsTemplate(s)
    ensures var keys := AfterCounters(s, vars).1.Keys; IsOrder(o1, keys) && IsOrder(o2, keys)
    ensures Replaced(s, vars, o1, draw, used).0 != Replaced(s, vars, o2, draw, used).0
  {
    if b in vars {
      s, o1, o2 := Show(Hole(a)), EndingIn(b, a, vars.Keys), EndingIn(a, b, vars.Keys);
      MentionReads(a);
      assert "" + Show(Hole(a)) == Show(Hole(a)) && "" + vars[a] == vars[a];
      DirtyValuesDependOnOrder("", a, b, vars);
      PlainReplaced(s, vars, o1, draw, used);
      PlainReplaced(s, vars, o2, draw, used);
    } else {
      var t, after := FormatInt(1), vars[b := FormatInt(1)];
      s, o1, o2 := CreateThenUse(a, b), EndingIn(b, a, after.Keys), EndingIn(a, b, after.Keys);
      CreatedShows(a, b, vars, t, after, draw, used);
    }
  }

  lemma CreatedShows(a: string, b: string, vars: Env, t: string, after: Env, draw: nat -> string, used: nat)
    requires PlainValues(vars) && a in vars && WellFormedSegment(Hole(a)) && PlainHole(a) && b !in vars
    requires Hole(b) in Parse(vars[a]) && Nameable(b) && t == FormatInt(1) && after == vars[b := t]
    ensures IsTemplate(CreateThenUse(a, b)) && AfterCounters(CreateThenUse(a, b), vars).1 == after
    ensures var (s, keys) := (CreateThenUse(a, b), after.Keys);
            Replaced(s, vars, EndingIn(b, a, keys), draw, used).0 !=
            Replaced(s, vars, EndingIn(a, b, keys), draw, used).0
  {
    var o1, o2 := EndingIn(b, a, after.Keys), EndingIn(a, b, after.Keys);
    assert BraceFree(b) by { assert WellFormedSegment(Hole(b)); }
    CreateThenUseCounts(a, b, vars, t);
    CountedValues(vars, b, t);
    DirtyValuesDependOnOrder(t, a, b, after);
    ResultStays(t, a, after, o1, draw, used);
    ResultStays(t, a, after, o2, draw, used);
  }

  lemma CountedValues(vars: Env, b: string, t: string)
    requires PlainValues(vars) && BraceFree(b) && t == FormatInt(1)
    ensures BraceFree(t) && PlainValues(vars[b := t]) && t != Show(Hole(b))
  {
    assert t == "1";
    TextHasNoHole(t);
    assert Show(Hole(b))[0] == '{';
  }

  /** The generators find nothing in the result. */
  lemma ResultStays(t: string, a: string, vars: Env, order: seq<string>, draw: nat -> string, used: nat)
    requires BraceFree(t) && WellFormedSegment(Hole(a)) && PlainHole(a) && PlainValues(vars)
    requires forall k <- order :: k in vars
    ensures var s := Substitute(t + Show(Hole(a)), order, vars); Scan(Generator(draw), s, State(vars, used)).0 == s
  {
    var segs := [Lit(t), Hole(a)];
    TextThen(t, a);
    var out := SubstitutePlain(segs, order, vars);
    ScanPrint(Generator(draw), out, State(vars, used));
    NothingHandled(Generator(draw), out, State(vars, used));
  }

  /** ReplaceString gives every template, counters and generators included, the same result in all
      orders of the variables. */
  ghost predicate ReplaceStringIgnoresOrder(vars: Env, draw: nat -> string, used: nat) {
    forall s, o1, o2 | IsTemplate(s) && IsOrder(o1, AfterCounters(s, vars).1.Keys)
                       && IsOrder(o2, AfterCounters(s, vars).1.Keys) ::
      Replaced(s, vars, o1, draw, used) == Replaced(s, vars, o2, draw, used)
  }

  /** Exact order-freedom of ReplaceString, by the variables before the call. */
  lemma ReplaceStringOrderFreeExactly(vars: Env, draw: nat -> string, used: nat)
    requires PlainValues(vars) && forall k <- vars :: WellFormedSegment(Hole(k)) && PlainHole(k)
    ensures ReplaceStringIgnoresOrder(vars, draw, used) <==> Inert(vars)
  {
    if Inert(vars) {
      forall s, o1, o2 | IsTemplate(s) && IsOrder(o1, AfterCounters(s, vars).1.Keys)
                         && IsOrder(o2, AfterCounters(s, vars).1.Keys)
        ensures Replaced(s, vars, o1, draw, used) == Replaced(s, vars, o2, draw, used)
      {
        CountersWrite(s, vars);
        InertStays(vars, AfterCounters(s, vars).1);
        HarmlessReplaced(s, vars, o1, draw, used);
        HarmlessReplaced(s, vars, o2, draw, used);
      }
    } else {
      var a, b :| a in vars && b != a && Hole(b) in Parse(vars[a]) && !StandsForItself(b, vars);
      var s, o1, o2 := MentionShowsOrder(a, b, vars, draw, used);
    }
  }
}
