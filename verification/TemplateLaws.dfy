/** The laws of ReplaceString on templates: order-free substitution and the exact guard. */
module TemplateLaws {
  import opened Text
  import opened TextLaws
  import opened Operators
  import opened Rewriting
  import opened Template
  import Counters

  /** The counter passes on the string do what the counter passes on the placeholders mean. */
  lemma CountersRefine(s: string, vars: Env)
    requires IsTemplate(s) && Clean(vars, Parse(s))
    ensures var segs := Parse(s);
            var (g2, vars2) := CountersMeaning(segs, vars);
            && AfterCounters(s, vars) == (Print(g2), vars2)
            && WellFormed(g2) && Clean(vars2, segs)
            && (forall n :: Counter(vars2, n).Some? <==> Counter(vars, n).Some?)
            && (forall x :: Hole(x) in g2 <==>
                  Hole(x) in segs && !Handles(INCREMENT, x, vars) && !Handles(DECREMENT, x, vars))
  {
    var segs := Parse(s);
    Counters.CountersOnStrings(s, vars);
    ScanSegmentsRewrites(INCREMENT, segs, State(vars, 0), segs);
    var (g1, st1) := ScanSegments(INCREMENT, segs, State(vars, 0));
    ScanSegmentsRewrites(DECREMENT, g1, State(st1.vars, 0), segs);
    assert forall x :: Handles(DECREMENT, x, st1.vars) <==> Handles(DECREMENT, x, vars);
  }

  lemma {:induction false} OneVariable(k: string, v: string, segs: seq<Segment>, st: State)
    ensures ScanSegments(Variable(k, v), segs, st) == (Simultaneous(segs, map[k := v]), st)
  {
    var a := Simultaneous(segs, map[k := v]);
    if segs == [] {
      assert a == [];
    } else {
      OneVariable(k, v, segs[1..], st);
      assert a == [ValueOf(segs[0], map[k := v])] + Simultaneous(segs[1..], map[k := v]);
    }
  }

  lemma SimultaneousTwice(segs: seq<Segment>, vars: Env, k: string, v: string)
    requires k in vars ==> vars[k] == v
    ensures Simultaneous(Simultaneous(segs, vars), map[k := v]) == Simultaneous(segs, vars[k := v])
  {
  }

  lemma SimultaneousWellFormed(segs: seq<Segment>, vars: Env)
    requires WellFormed(segs) && forall x | Hole(x) in segs && x in vars :: BraceFree(vars[x])
    ensures WellFormed(Simultaneous(segs, vars))
  {
    forall i | 0 <= i < |segs| ensures WellFormedSegment(Simultaneous(segs, vars)[i]) {
      assert WellFormedSegment(segs[i]) && segs[i] in segs;
    }
  }

  function Listed(order: seq<string>, vars: Env): Env
    requires forall k <- order :: k in vars
  {
    map k | k in order :: vars[k]
  }

  /** The loop of ReplaceAll calls, in any order, is one simultaneous substitution. */
  lemma {:induction false} SubstituteRefines(segs: seq<Segment>, order: seq<string>, vars: Env)
    requires WellFormed(segs) && Clean(vars, segs) && forall k <- order :: k in vars
    ensures Substitute(Print(segs), order, vars) == Print(Simultaneous(segs, Listed(order, vars)))
  {
    if order == [] {
      assert Simultaneous(segs, Listed(order, vars)) == segs;
    } else {
      var init := order[..|order| - 1];
      var k := order[|order| - 1];
      var g := Simultaneous(segs, Listed(init, vars));
      SubstituteRefines(segs, init, vars);
      SimultaneousWellFormed(segs, Listed(init, vars));
      ScanPrint(Variable(k, vars[k]), g, State(vars, 0));
      OneVariable(k, vars[k], g, State(vars, 0));
      SimultaneousTwice(segs, Listed(init, vars), k, vars[k]);
      assert Listed(init, vars)[k := vars[k]] == Listed(order, vars);
    }
  }

  lemma SubstituteAll(segs: seq<Segment>, order: seq<string>, vars: Env)
    requires WellFormed(segs) && Clean(vars, segs) && IsOrder(order, vars.Keys)
    ensures Substitute(Print(segs), order, vars) == Print(Simultaneous(segs, vars))
    ensures WellFormed(Simultaneous(segs, vars))
  {
    SubstituteRefines(segs, order, vars);
    assert Listed(order, vars) == vars;
    SimultaneousWellFormed(segs, vars);
  }

  /** Order-free substitution: on a template over clean variables, every iteration order of the
      map gives the same text, the one of the simultaneous substitution. */
  lemma OrderFree(s: string, vars: Env, order: seq<string>, draw: nat -> string, used: nat)
    requires IsTemplate(s) && Clean(vars, Parse(s))
    requires IsOrder(order, AfterCounters(s, vars).1.Keys)
    ensures var (g, last) := Meaning(Parse(s), vars, draw, used);
            Replaced(s, vars, order, draw, used) == (Print(g), last)
  {
    CountersRefine(s, vars);
    var (g2, vars2) := CountersMeaning(Parse(s), vars);
    SubstituteAll(g2, order, vars2);
    ScanPrint(Generator(draw), Simultaneous(g2, vars2), State(vars2, used));
  }

  lemma {:induction false} TextStays(rule: Rule, segs: seq<Segment>, st: State, i: nat)
    requires i < |segs| && segs[i].Lit?
    ensures ScanSegments(rule, segs, st).0[i] == segs[i]
  {
    if i > 0 { TextStays(rule, segs[1..], OnSegment(rule, segs[0], st).1, i - 1); }
  }

  lemma {:induction false} SameProduced(c: string, segs: seq<Segment>, a: seq<Segment>, b: seq<Segment>)
    requires |segs| == |a| == |b|
    requires forall i | 0 <= i < |segs| && Counters.IsOp("++", c, segs[i]) :: a[i] == b[i]
    ensures Counters.Produced("++", c, segs, a) == Counters.Produced("++", c, segs, b)
  {
    if segs != [] { SameProduced(c, segs[1..], a[1..], b[1..]); }
  }

  /** The numbers an increment produces reach the final text: no variable and no generator
      rewrites them. */
  lemma ProducedIsShown(segs: seq<Segment>, vars: Env, draw: nat -> string, used: nat, c: string)
    requires Counter(vars, c).Some?
    ensures Counters.Produced("++", c, segs, Meaning(segs, vars, draw, used).0) ==
            Counters.Produced("++", c, segs, CountersMeaning(segs, vars).0)
  {
    var st := State(vars, 0);
    var (g1, st1) := ScanSegments(INCREMENT, segs, st);
    var (g2, vars2) := CountersMeaning(segs, vars);
    var g3, last := Simultaneous(g2, vars2), State(vars2, used);
    Counters.PassResolves("++", 1, c, segs, st);
    forall i | 0 <= i < |segs| && Counters.IsOp("++", c, segs[i])
      ensures g2[i] == ScanSegments(Generator(draw), g3, last).0[i]
    {
      TextStays(DECREMENT, g1, State(st1.vars, 0), i);
      TextStays(Generator(draw), g3, last, i);
    }
    SameProduced(c, segs, Meaning(segs, vars, draw, used).0, g2);
  }

  // ---- The guard ----

  /** A counter placeholder of the template creates the variable. */
  ghost predicate Creates(segs: seq<Segment>, k: string) {
    exists x :: Hole(x) in segs && (OpName("++", x) == Some(k) || OpName("--", x) == Some(k))
  }

  /** Readable off the template and the variables before the call. */
  ghost predicate Resolvable(x: string, segs: seq<Segment>, vars: Env) {
    || Handles(INCREMENT, x, vars)
    || Handles(DECREMENT, x, vars)
    || x in vars
    || Creates(segs, x)
    || Handles(Generator(_ => ""), x, vars)
  }

  lemma {:induction false} PassDefines(rule: Rule, segs: seq<Segment>, st: State, k: string)
    requires rule.Step?
    ensures k in ScanSegments(rule, segs, st).1.vars <==>
            k in st.vars || exists x :: Hole(x) in segs && OpName(rule.op, x) == Some(k)
  {
    if segs != [] {
      var (g, next) := OnSegment(rule, segs[0], st);
      PassDefines(rule, segs[1..], next, k);
      assert segs == [segs[0]] + segs[1..];
      if segs[0].Hole? && OpName(rule.op, segs[0].inner) == Some(k) {
        assert k in next.vars;
      }
    }
  }

  lemma CountersDefine(s: string, vars: Env, k: string)
    requires IsTemplate(s) && Clean(vars, Parse(s))
    ensures k in CountersMeaning(Parse(s), vars).1 <==> k in vars || Creates(Parse(s), k)
  {
    var segs := Parse(s);
    var st := State(vars, 0);
    ScanSegmentsRewrites(INCREMENT, segs, st, segs);
    var (g1, st1) := ScanSegments(INCREMENT, segs, st);
    PassDefines(INCREMENT, segs, st, k);
    PassDefines(DECREMENT, g1, State(st1.vars, 0), k);
    assert "++"[0] != "--"[0];
    assert forall x | OpName("--", x).Some? :: OpName("++", x).None?;
    assert forall x | OpName("--", x).Some? :: Hole(x) in g1 <==> Hole(x) in segs;
  }

  /** Exactness of the guard, for every order and every random text. */
  lemma GuardExact(s: string, vars: Env, order: seq<string>, draw: nat -> string, used: nat)
    requires IsTemplate(s) && Clean(vars, Parse(s)) && forall i :: BraceFree(draw(i))
    requires IsOrder(order, AfterCounters(s, vars).1.Keys)
    ensures HasUnresolved(Replaced(s, vars, order, draw, used).0) <==>
            exists x :: Hole(x) in Parse(s) && !Resolvable(x, Parse(s), vars)
  {
    var segs := Parse(s);
    OrderFree(s, vars, order, draw, used);
    CountersRefine(s, vars);
    var (g2, vars2) := CountersMeaning(segs, vars);
    var g3 := Simultaneous(g2, vars2);
    SimultaneousWellFormed(g2, vars2);
    SimultaneousHoles(g2, vars2);
    assert Clean(vars2, g3);
    ScanSegmentsRewrites(Generator(draw), g3, State(vars2, used), g3);
    var out := ScanSegments(Generator(draw), g3, State(vars2, used)).0;
    GuardOnPrint(out);
    forall x ensures Hole(x) in out <==> Hole(x) in segs && !Resolvable(x, segs, vars) {
      CountersDefine(s, vars, x);
      assert Handles(Generator(draw), x, vars2) <==> Handles(Generator(_ => ""), x, vars);
    }
    assert HasHole(out) <==> exists x :: Hole(x) in out by {
      if HasHole(out) {
        var i :| 0 <= i < |out| && out[i].Hole?;
        assert Hole(out[i].inner) in out;
      }
    }
  }

  lemma SimultaneousHoles(segs: seq<Segment>, vars: Env)
    ensures forall x :: Hole(x) in Simultaneous(segs, vars) <==> Hole(x) in segs && x !in vars
  {
    var out := Simultaneous(segs, vars);
    forall x ensures Hole(x) in out <==> Hole(x) in segs && x !in vars {
      if Hole(x) in segs && x !in vars {
        var i :| 0 <= i < |segs| && segs[i] == Hole(x);
        assert out[i] == Hole(x);
      }
      if Hole(x) in out {
        var i :| 0 <= i < |out| && out[i] == Hole(x);
        assert segs[i] == Hole(x);
      }
    }
  }

  // ---- Generators ----

  ghost predicate IsCall(g: Segment) {
    g.Hole? && Generates(g.inner)
  }

  /** How many accepted calls stand before place i. */
  ghost function CallsBefore(segs: seq<Segment>, i: nat): nat
    requires i <= |segs|
  {
    if i == 0 then 0 else (if IsCall(segs[0]) then 1 else 0) + CallsBefore(segs[1..], i - 1)
  }

  lemma OneGenerator(draw: nat -> string, g: Segment, st: State)
    ensures OnSegment(Generator(draw), g, st) ==
            if IsCall(g) then (Lit(draw(st.drawn)), st.(drawn := st.drawn + 1)) else (g, st)
  {
    if g.Hole? { GeneratesExactly(g.inner); }
  }

  /** What becomes of place i, when the first random text is number used. */
  ghost function Answer(segs: seq<Segment>, i: nat, draw: nat -> string, used: nat): Segment
    requires i < |segs|
  {
    if IsCall(segs[i]) then Lit(draw(used + CallsBefore(segs, i))) else segs[i]
  }

  /** The generator pass: each accepted call becomes the next random text, all else stays. */
  lemma {:induction false} GeneratorAt(draw: nat -> string, segs: seq<Segment>, st: State, i: nat)
    requires i < |segs|
    ensures ScanSegments(Generator(draw), segs, st).0[i] == Answer(segs, i, draw, st.drawn)
  {
    var (g, next) := OnSegment(Generator(draw), segs[0], st);
    var out := ScanSegments(Generator(draw), segs[1..], next).0;
    OneGenerator(draw, segs[0], st);
    if i > 0 {
      GeneratorAt(draw, segs[1..], next, i - 1);
      AnswerTail(segs, i, draw, st.drawn, next.drawn);
      assert ([g] + out)[i] == out[i - 1];
    }
  }

  lemma AnswerTail(segs: seq<Segment>, i: nat, draw: nat -> string, used: nat, more: nat)
    requires 0 < i < |segs| && more == used + if IsCall(segs[0]) then 1 else 0
    ensures Answer(segs[1..], i - 1, draw, more) == Answer(segs, i, draw, used)
  {
  }

  lemma {:induction false} GeneratorDraws(draw: nat -> string, segs: seq<Segment>, st: State)
    ensures ScanSegments(Generator(draw), segs, st).1 == st.(drawn := st.drawn + CallsBefore(segs, |segs|))
  {
    if segs != [] {
      OneGenerator(draw, segs[0], st);
      GeneratorDraws(draw, segs[1..], OnSegment(Generator(draw), segs[0], st).1);
    }
  }

  lemma {:induction false} NoOperatorStays(rule: Rule, segs: seq<Segment>, st: State, i: nat)
    requires rule.Step? && i < |segs| && segs[i].Hole? && OpName(rule.op, segs[i].inner) == None
    ensures ScanSegments(rule, segs, st).0[i] == segs[i]
  {
    if i > 0 { NoOperatorStays(rule, segs[1..], OnSegment(rule, segs[0], st).1, i - 1); }
  }

  predicate NoOperator(x: string) {
    OpName("++", x) == None && OpName("--", x) == None
  }

  lemma NoOperatorsStay(segs: seq<Segment>, vars: Env, i: nat)
    requires i < |segs| && segs[i].Hole? && NoOperator(segs[i].inner)
    ensures CountersMeaning(segs, vars).0[i] == segs[i]
  {
    var (g1, st1) := ScanSegments(INCREMENT, segs, State(vars, 0));
    NoOperatorStays(INCREMENT, segs, State(vars, 0), i);
    NoOperatorStays(DECREMENT, g1, State(st1.vars, 0), i);
  }

  /** The template after the counter passes, with the variables put in. */
  function PutIn(segs: seq<Segment>, vars: Env): (g: seq<Segment>)
    ensures |g| == |segs|
  {
    var (g2, vars2) := CountersMeaning(segs, vars);
    Simultaneous(g2, vars2)
  }

  lemma PutInAt(segs: seq<Segment>, vars: Env, i: nat)
    requires i < |segs| && segs[i].Hole? && NoOperator(segs[i].inner)
    ensures PutIn(segs, vars)[i] == ValueOf(segs[i], CountersMeaning(segs, vars).1)
  {
    NoOperatorsStay(segs, vars, i);
  }

  lemma MeaningIs(segs: seq<Segment>, vars: Env, draw: nat -> string, used: nat, st: State, g: seq<Segment>,
                  out: seq<Segment>)
    requires st == State(CountersMeaning(segs, vars).1, used) && g == PutIn(segs, vars)
    requires out == ScanSegments(Generator(draw), g, st).0
    ensures Meaning(segs, vars, draw, used) == (out, used + CallsBefore(g, |g|))
  {
    GeneratorDraws(draw, g, st);
  }

  lemma ReplacedIs(s: string, vars: Env, order: seq<string>, draw: nat -> string, used: nat, segs: seq<Segment>,
                   out: seq<Segment>, last: nat)
    requires IsTemplate(s) && segs == Parse(s) && Clean(vars, segs) && IsOrder(order, AfterCounters(s, vars).1.Keys)
    requires Meaning(segs, vars, draw, used) == (out, last)
    ensures Replaced(s, vars, order, draw, used) == (Print(out), last)
  {
    OrderFree(s, vars, order, draw, used);
  }

  /** Every place of g has its answer. */
  ghost predicate Answered(g: seq<Segment>, out: seq<Segment>, draw: nat -> string, used: nat) {
    |out| == |g| && forall i | 0 <= i < |g| :: out[i] == Answer(g, i, draw, used)
  }

  lemma AnswersAll(draw: nat -> string, g: seq<Segment>, st: State, out: seq<Segment>)
    requires out == ScanSegments(Generator(draw), g, st).0
    ensures Answered(g, out, draw, st.drawn)
  {
    forall i | 0 <= i < |g| ensures out[i] == Answer(g, i, draw, st.drawn) { GeneratorAt(draw, g, st, i); }
  }

  /** Every placeholder of segs that is no counter operator has its value in g, or is still there. */
  ghost predicate Valued(segs: seq<Segment>, g: seq<Segment>, vars: Env) {
    && |g| == |segs|
    && forall i | 0 <= i < |g| && segs[i].Hole? && NoOperator(segs[i].inner) :: g[i] == ValueOf(segs[i], vars)
  }

  lemma PutInAll(segs: seq<Segment>, vars: Env, g: seq<Segment>, after: Env)
    requires g == PutIn(segs, vars) && after == CountersMeaning(segs, vars).1
    ensures Valued(segs, g, after)
  {
    forall i | 0 <= i < |g| && segs[i].Hole? && NoOperator(segs[i].inner) ensures g[i] == ValueOf(segs[i], after) {
      PutInAt(segs, vars, i);
    }
  }

  /** What ReplaceString makes of the placeholders that are no counter operators. In g a variable has its
      value, whatever it is called, and any other placeholder is left to the generators: accepted calls
      become the next random texts, in order. */
  lemma GeneratorsReplaced(s: string, vars: Env, order: seq<string>, draw: nat -> string, used: nat)
    returns (g: seq<Segment>, out: seq<Segment>)
    requires IsTemplate(s) && Clean(vars, Parse(s)) && IsOrder(order, AfterCounters(s, vars).1.Keys)
    ensures Valued(Parse(s), g, AfterCounters(s, vars).1) && Answered(g, out, draw, used)
    ensures Replaced(s, vars, order, draw, used) == (Print(out), used + CallsBefore(g, |g|))
  {
    var segs := Parse(s);
    var st := State(CountersMeaning(segs, vars).1, used);
    g := PutIn(segs, vars);
    out := ScanSegments(Generator(draw), g, st).0;
    MeaningIs(segs, vars, draw, used, st, g, out);
    ReplacedIs(s, vars, order, draw, used, segs, out, used + CallsBefore(g, |g|));
    Counters.CountersOnStrings(s, vars);
    AnswersAll(draw, g, st, out);
    PutInAll(segs, vars, g, st.vars);
  }

  lemma CallNoOperator(name: string, args: string)
    requires name != "" && name[0] != '+' && name[0] != '-'
    ensures NoOperator(Call(name, args))
  {
    assert "++"[0] == '+' && "--"[0] == '-';
  }

  lemma NoOperators(t: string, a: string)
    ensures NoOperator("uuid()") && NoOperator("randomInt(0)")
    ensures NoOperator(Call("randomInt", t)) && NoOperator(Call("uuid", a))
  {
    CallNoOperator("uuid", "");
    CallNoOperator("uuid", a);
    CallNoOperator("randomInt", "0");
    CallNoOperator("randomInt", t);
    assert Call("uuid", "") == "uuid()" && Call("randomInt", "0") == "randomInt(0)";
  }

  /** One place of a template: an accepted call is replaced, and what is neither accepted nor a
      variable stays. */
  lemma PlaceShows(x: string, seg: Segment, out: Segment, after: Env, draw: nat -> string, n: nat)
    requires seg == ValueOf(Hole(x), after) && out == if IsCall(seg) then Lit(draw(n)) else seg
    ensures Generates(x) ==> out.Lit?
    ensures !Generates(x) && x !in after ==> out == Hole(x)
  {
  }

  /** In every template {{uuid()}} and {{randomInt(n)}} are replaced, for every positive n, whereas
      {{randomInt(0)}} and {{uuid(a)}} stay unless they are the names of variables. */
  lemma GeneratorsShow(s: string, vars: Env, order: seq<string>, draw: nat -> string, used: nat, i: nat, x: string,
                       t: string, n: nat, a: string) returns (out: seq<Segment>)
    requires IsTemplate(s) && Clean(vars, Parse(s)) && IsOrder(order, AfterCounters(s, vars).1.Keys)
    requires i < |Parse(s)| && Parse(s)[i] == Hole(x)
    requires IsDecimalNat(t, n) && 0 < n <= 9_223_372_036_854_775_807 && a != ""
    ensures |out| == |Parse(s)| && Replaced(s, vars, order, draw, used).0 == Print(out)
    ensures x == "uuid()" || x == Call("randomInt", t) ==> out[i].Lit?
    ensures (x == "randomInt(0)" || x == Call("uuid", a)) && x !in AfterCounters(s, vars).1 ==> out[i] == Hole(x)
  {
    var g;
    g, out := GeneratorsReplaced(s, vars, order, draw, used);
    Generators(t, n, a);
    NoOperators(t, a);
    if NoOperator(x) {
      PlaceShows(x, g[i], out[i], AfterCounters(s, vars).1, draw, used + CallsBefore(g, i));
    }
  }
}
