/** Conservation of the counter operators over any sequence of rendered templates. No bound and
    no assumption on the other variables: arithmetic is the 64-bit wrap-around of the code. */
module Counters {
  import opened Text
  import opened TextLaws
  import opened Sequences
  import opened Rewriting
  import opened Template

  predicate IsOp(op: string, c: string, g: Segment) {
    g.Hole? && OpName(op, g.inner) == Some(c)
  }

  /** How many placeholders apply op to c. */
  function CountOps(op: string, c: string, segs: seq<Segment>): nat {
    if segs == [] then 0 else (if IsOp(op, c, segs[0]) then 1 else 0) + CountOps(op, c, segs[1..])
  }

  /** What was printed where op was applied to c, left to right. */
  function Produced(op: string, c: string, segs: seq<Segment>, out: seq<Segment>): seq<string>
    requires |segs| == |out|
  {
    if segs == [] then []
    else (if IsOp(op, c, segs[0]) then [Show(out[0])] else []) + Produced(op, c, segs[1..], out[1..])
  }

  /** k after n steps of delta, which is 1 or -1. */
  function Moved(k: int, delta: int, n: nat): (r: int)
    ensures InInt64(r)
  {
    Wrap64(if delta == 1 then k + n else k - n)
  }

  /** The texts are the n numbers after k, in order. */
  ghost predicate Counted(texts: seq<string>, k: int, delta: int, n: nat) {
    |texts| == n && forall i | 0 <= i < n :: texts[i] == FormatInt(Moved(k, delta, i + 1))
  }

  lemma MovedTwice(k: int, delta: int, m: nat, n: nat)
    ensures Moved(Moved(k, delta, m), delta, n) == Moved(k, delta, m + n)
  {
    if delta == 1 { WrapAdd(k + m, n); } else { WrapAdd(k - m, -(n as int)); }
  }

  lemma MovedOnce(k: int, delta: int, n: nat, total: nat)
    requires total == n + 1
    ensures Moved(Moved(k, delta, 1), delta, n) == Moved(k, delta, total)
  {
    MovedTwice(k, delta, 1, n);
  }

  lemma CountedAppend(a: seq<string>, b: seq<string>, k: int, delta: int, m: nat, n: nat)
    requires Counted(a, k, delta, m) && Counted(b, Moved(k, delta, m), delta, n)
    ensures Counted(a + b, k, delta, m + n)
  {
    forall i | 0 <= i < m + n ensures (a + b)[i] == FormatInt(Moved(k, delta, i + 1)) {
      if i >= m { MovedTwice(k, delta, m, i - m + 1); }
    }
  }

  /** Inside the 64-bit range the texts are k+1 .. k+n, each exactly once. */
  lemma CountedDistinct(texts: seq<string>, k: int, n: nat, i: nat, j: nat)
    requires Counted(texts, k, 1, n) && InInt64(k) && InInt64(k + n) && i < j < n
    ensures texts[i] == FormatInt(k + i + 1) != texts[j]
  {
    ParseFormatInt(k + i + 1);
    ParseFormatInt(k + j + 1);
  }

  /** k after p increments and q decrements. */
  function Net(k: int, p: nat, q: nat): int {
    Wrap64(k + p - q)
  }

  lemma NetMoves(k: int, p: nat, q: nat)
    ensures Moved(Moved(k, 1, p), -1, q) == Net(k, p, q)
  {
    WrapAdd(k + p, -(q as int));
  }

  lemma NetSum(k: int, p: nat, q: nat, p': nat, q': nat, p2: nat, q2: nat)
    requires p2 == p + p' && q2 == q + q'
    ensures Net(Net(k, p, q), p', q') == Net(k, p2, q2)
  {
    WrapAdd(k + p - q, p' - q');
  }

  // ---- One pass ----

  /** One placeholder moves the counter it names, and no other. */
  lemma OnSegmentMoves(op: string, delta: int, c: string, g: Segment, st: State, k: int)
    requires Counter(st.vars, c) == Some(k) && (delta == 1 || delta == -1)
    ensures var (g', next) := OnSegment(Step(op, delta), g, st);
            if IsOp(op, c, g) then
              Counter(next.vars, c) == Some(Moved(k, delta, 1)) && g' == Lit(FormatInt(Moved(k, delta, 1)))
            else Counter(next.vars, c) == Some(k)
  {
    if g.Hole? && OpName(op, g.inner).Some? {
      var name := OpName(op, g.inner).value;
      var v := Moved(k, delta, 1);
      if name == c {
        assert Advance(Step(op, delta), c, st) == Some((FormatInt(v), st.(vars := st.vars[c := FormatInt(v)])));
        ParseFormatInt(v);
      } else {
        var next := OnSegment(Step(op, delta), g, st).1.vars;
        assert (c in next <==> c in st.vars) && (c in next ==> next[c] == st.vars[c]);
      }
    }
  }

  /** One pass of an operator: the counter moves by delta per placeholder. */
  lemma {:induction false} PassConserves(op: string, delta: int, c: string, segs: seq<Segment>, st: State, k: int)
    requires Counter(st.vars, c) == Some(k) && InInt64(k) && (delta == 1 || delta == -1)
    ensures Counter(ScanSegments(Step(op, delta), segs, st).1.vars, c) == Some(Moved(k, delta, CountOps(op, c, segs)))
  {
    if segs == [] {
      assert Moved(k, delta, 0) == k;
    } else {
      var next := OnSegment(Step(op, delta), segs[0], st).1;
      OnSegmentMoves(op, delta, c, segs[0], st, k);
      var k' := if IsOp(op, c, segs[0]) then Moved(k, delta, 1) else k;
      PassConserves(op, delta, c, segs[1..], next, k');
      MovedOnce(k, delta, CountOps(op, c, segs[1..]), 1 + CountOps(op, c, segs[1..]));
    }
  }

  /** What the placeholders print is exactly the numbers passed through. */
  lemma {:induction false} PassCounts(op: string, delta: int, c: string, segs: seq<Segment>, st: State, k: int)
    requires Counter(st.vars, c) == Some(k) && InInt64(k) && (delta == 1 || delta == -1)
    ensures Counted(Produced(op, c, segs, ScanSegments(Step(op, delta), segs, st).0), k, delta, CountOps(op, c, segs))
  {
    if segs != [] {
      var (g, next) := OnSegment(Step(op, delta), segs[0], st);
      OnSegmentMoves(op, delta, c, segs[0], st, k);
      var out := ScanSegments(Step(op, delta), segs[1..], next).0;
      assert ([g] + out)[1..] == out;
      if IsOp(op, c, segs[0]) {
        PassCounts(op, delta, c, segs[1..], next, Moved(k, delta, 1));
        CountedAppend([Show(g)], Produced(op, c, segs[1..], out), k, delta, 1, CountOps(op, c, segs[1..]));
      } else {
        PassCounts(op, delta, c, segs[1..], next, k);
        assert [] + Produced(op, c, segs[1..], out) == Produced(op, c, segs[1..], out);
      }
    }
  }

  /** A variable no placeholder names, or that holds no integer, keeps its text. */
  lemma {:induction false} PassKeeps(op: string, delta: int, c: string, segs: seq<Segment>, st: State)
    requires CountOps(op, c, segs) == 0 || Counter(st.vars, c).None?
    ensures var last := ScanSegments(Step(op, delta), segs, st).1;
            (c in last.vars <==> c in st.vars) && (c in st.vars ==> last.vars[c] == st.vars[c])
  {
    if segs != [] {
      PassKeeps(op, delta, c, segs[1..], OnSegment(Step(op, delta), segs[0], st).1);
    }
  }

  /** A pass of one operator leaves the placeholders of the other. */
  lemma {:induction false} PassLeaves(op: string, delta: int, op2: string, c: string, segs: seq<Segment>, st: State)
    requires forall x | OpName(op2, x).Some? :: OpName(op, x).None?
    ensures CountOps(op2, c, ScanSegments(Step(op, delta), segs, st).0) == CountOps(op2, c, segs)
  {
    if segs != [] {
      PassLeaves(op, delta, op2, c, segs[1..], OnSegment(Step(op, delta), segs[0], st).1);
    }
  }

  /** What a pass resolved, the other pass does not touch. */
  lemma {:induction false} LaterKeepsProduced(op: string, c: string, segs: seq<Segment>, mid: seq<Segment>, rule: Rule,
                                              st: State)
    requires |segs| == |mid| && forall i | 0 <= i < |segs| && IsOp(op, c, segs[i]) :: mid[i].Lit?
    ensures Produced(op, c, segs, ScanSegments(rule, mid, st).0) == Produced(op, c, segs, mid)
  {
    if segs != [] {
      LaterKeepsProduced(op, c, segs[1..], mid[1..], rule, OnSegment(rule, mid[0], st).1);
    }
  }

  lemma {:induction false} PassResolves(op: string, delta: int, c: string, segs: seq<Segment>, st: State)
    requires Counter(st.vars, c).Some?
    ensures var out := ScanSegments(Step(op, delta), segs, st).0;
            forall i | 0 <= i < |segs| && IsOp(op, c, segs[i]) :: out[i].Lit?
  {
    if segs != [] {
      var (g, next) := OnSegment(Step(op, delta), segs[0], st);
      if segs[0].Hole? { OnHoleVars(Step(op, delta), segs[0].inner, st, c); }
      PassResolves(op, delta, c, segs[1..], next);
      var out := ScanSegments(Step(op, delta), segs[1..], next).0;
      forall i | 0 <= i < |segs| && IsOp(op, c, segs[i]) ensures ([g] + out)[i].Lit? {
        if i > 0 { assert segs[i] == segs[1..][i - 1]; }
      }
    }
  }

  lemma OperatorsDiffer()
    ensures forall x | OpName("--", x).Some? :: OpName("++", x).None?
  {
    assert "++"[0] != "--"[0];
  }

  // ---- One template ----

  lemma {:induction false} StepWellFormed(op: string, delta: int, segs: seq<Segment>, st: State)
    requires WellFormed(segs)
    ensures WellFormed(ScanSegments(Step(op, delta), segs, st).0)
  {
    if segs != [] {
      var (g, next) := OnSegment(Step(op, delta), segs[0], st);
      StepWellFormed(op, delta, segs[1..], next);
      assert WellFormedSegment(g);
    }
  }

  /** The counter passes on the string are the passes on its placeholders, whatever the variables hold. */
  lemma CountersOnStrings(s: string, vars: Env)
    requires IsTemplate(s)
    ensures var (g, after) := CountersMeaning(Parse(s), vars); AfterCounters(s, vars) == (Print(g), after)
  {
    PrintParse(s);
    ScanPrint(INCREMENT, Parse(s), State(vars, 0));
    StepWellFormed("++", 1, Parse(s), State(vars, 0));
    var (g1, st1) := ScanSegments(INCREMENT, Parse(s), State(vars, 0));
    ScanPrint(DECREMENT, g1, State(st1.vars, 0));
  }

  function Uses(op: string, c: string, s: string): nat {
    CountOps(op, c, Parse(s))
  }

  lemma CounterInt64(vars: Env, c: string)
    ensures Counter(vars, c).Some? ==> InInt64(Counter(vars, c).value)
  {
  }

  /** One template with p increments and q decrements of c moves c by p - q. */
  lemma TemplateConserves(s: string, vars: Env, c: string, k: int)
    requires IsTemplate(s) && Counter(vars, c) == Some(k)
    ensures var (g, after) := CountersMeaning(Parse(s), vars);
            && after == AfterCounters(s, vars).1
            && Counter(after, c) == Some(Net(k, Uses("++", c, s), Uses("--", c, s)))
            && Counted(Produced("++", c, Parse(s), g), k, 1, Uses("++", c, s))
  {
    var segs := Parse(s);
    var st := State(vars, 0);
    CounterInt64(vars, c);
    CountersOnStrings(s, vars);
    PassConserves("++", 1, c, segs, st, k);
    PassCounts("++", 1, c, segs, st, k);
    PassResolves("++", 1, c, segs, st);
    OperatorsDiffer();
    PassLeaves("++", 1, "--", c, segs, st);
    var (g1, st1) := ScanSegments(INCREMENT, segs, st);
    PassConserves("--", -1, c, g1, State(st1.vars, 0), Moved(k, 1, Uses("++", c, s)));
    LaterKeepsProduced("++", c, segs, g1, DECREMENT, State(st1.vars, 0));
    NetMoves(k, Uses("++", c, s), Uses("--", c, s));
  }

  /** An absent counter starts from 0: its increments print the decimal texts of 1, 2, 3 and so on. */
  lemma AbsentCounts(s: string, vars: Env, c: string)
    requires IsTemplate(s) && c !in vars
    ensures var texts := Produced("++", c, Parse(s), CountersMeaning(Parse(s), vars).0);
            |texts| == Uses("++", c, s) && forall i | 0 <= i < |texts| :: IsDecimal(texts[i], Wrap64(i + 1))
  {
    var texts := Produced("++", c, Parse(s), CountersMeaning(Parse(s), vars).0);
    TemplateConserves(s, vars, c, 0);
    forall i | 0 <= i < |texts| ensures IsDecimal(texts[i], Wrap64(i + 1)) {
      FormatIntExactly(texts[i], Wrap64(i + 1));
    }
  }

  /** A template that does not name c, or finds no integer in it, leaves c alone. */
  lemma TemplateKeeps(s: string, vars: Env, c: string)
    requires IsTemplate(s)
    requires Uses("++", c, s) == Uses("--", c, s) == 0 || Counter(vars, c).None?
    ensures var after := AfterCounters(s, vars).1;
            (c in after <==> c in vars) && (c in vars ==> after[c] == vars[c])
  {
    var segs := Parse(s);
    var st := State(vars, 0);
    CountersOnStrings(s, vars);
    PassKeeps("++", 1, c, segs, st);
    OperatorsDiffer();
    PassLeaves("++", 1, "--", c, segs, st);
    var (g1, st1) := ScanSegments(INCREMENT, segs, st);
    PassKeeps("--", -1, c, g1, State(st1.vars, 0));
  }

  // ---- A sequence of templates ----

  /** The variables after rendering the templates one after another. */
  function Effect(ls: seq<string>, vars: Env): Env {
    if ls == [] then vars else Effect(ls[1..], AfterCounters(ls[0], vars).1)
  }

  function Total(op: string, c: string, ls: seq<string>): nat {
    if ls == [] then 0 else Uses(op, c, ls[0]) + Total(op, c, ls[1..])
  }

  /** The values all the increments of c print, in rendering order. */
  function ProducedAll(c: string, ls: seq<string>, vars: Env): seq<string> {
    if ls == [] then []
    else Produced("++", c, Parse(ls[0]), CountersMeaning(Parse(ls[0]), vars).0)
         + ProducedAll(c, ls[1..], AfterCounters(ls[0], vars).1)
  }

  ghost predicate AllTemplates(ls: seq<string>) {
    forall s <- ls :: IsTemplate(s)
  }

  /** Over any rendering sequence, p increments and q decrements of c move c by p - q. */
  lemma {:induction false} EffectConserves(ls: seq<string>, vars: Env, c: string, k: int)
    requires AllTemplates(ls) && Counter(vars, c) == Some(k) && InInt64(k)
    ensures Counter(Effect(ls, vars), c) == Some(Net(k, Total("++", c, ls), Total("--", c, ls)))
    decreases |ls|
  {
    if ls == [] {
      assert Net(k, 0, 0) == k;
    } else {
      var p, q := Uses("++", c, ls[0]), Uses("--", c, ls[0]);
      TemplateConserves(ls[0], vars, c, k);
      NetSum(k, p, q, Total("++", c, ls[1..]), Total("--", c, ls[1..]), Total("++", c, ls), Total("--", c, ls));
      EffectConserves(ls[1..], AfterCounters(ls[0], vars).1, c, Net(k, p, q));
    }
  }

  /** Without decrements, the values printed are the numbers after k in order. */
  lemma {:induction false} EffectCounts(ls: seq<string>, vars: Env, c: string, k: int)
    requires AllTemplates(ls) && Counter(vars, c) == Some(k) && InInt64(k) && Total("--", c, ls) == 0
    ensures Counted(ProducedAll(c, ls, vars), k, 1, Total("++", c, ls))
    decreases |ls|
  {
    if ls != [] {
      var p := Uses("++", c, ls[0]);
      TemplateConserves(ls[0], vars, c, k);
      assert Net(k, p, 0) == Moved(k, 1, p);
      var after := AfterCounters(ls[0], vars).1;
      EffectCounts(ls[1..], after, c, Moved(k, 1, p));
      CountedAppend(Produced("++", c, Parse(ls[0]), CountersMeaning(Parse(ls[0]), vars).0),
                    ProducedAll(c, ls[1..], after), k, 1, p, Total("++", c, ls[1..]));
    }
  }

  lemma {:induction false} EffectAppend(a: seq<string>, b: seq<string>, vars: Env)
    ensures Effect(a + b, vars) == Effect(b, Effect(a, vars))
  {
    if a == [] {
      assert a + b == b;
    } else {
      assert (a + b)[1..] == a[1..] + b;
      EffectAppend(a[1..], b, AfterCounters(a[0], vars).1);
    }
  }

  lemma {:induction false} TotalAppend(op: string, c: string, a: seq<string>, b: seq<string>)
    ensures Total(op, c, a + b) == Total(op, c, a) + Total(op, c, b)
  {
    if a == [] {
      assert a + b == b;
    } else {
      assert (a + b)[1..] == a[1..] + b;
      TotalAppend(op, c, a[1..], b);
    }
  }

  lemma TotalRemove(op: string, c: string, b: seq<string>, i: nat)
    requires i < |b|
    ensures Total(op, c, b) == Uses(op, c, b[i]) + Total(op, c, b[..i] + b[i + 1..])
  {
    assert b == b[..i] + ([b[i]] + b[i + 1..]);
    TotalAppend(op, c, b[..i], [b[i]] + b[i + 1..]);
    TotalAppend(op, c, [b[i]], b[i + 1..]);
    TotalAppend(op, c, b[..i], b[i + 1..]);
  }

  /** The number of uses does not depend on the order of the templates. */
  lemma {:induction false} TotalOrderFree(op: string, c: string, a: seq<string>, b: seq<string>)
    requires multiset(a) == multiset(b)
    ensures Total(op, c, a) == Total(op, c, b)
  {
    if a == [] {
      assert |multiset(b)| == 0;
    } else {
      var i := SameHead(a, b);
      TotalOrderFree(op, c, a[1..], b[..i] + b[i + 1..]);
      TotalRemove(op, c, b, i);
    }
  }
}
