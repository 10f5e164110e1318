/** ReplaceMap, replaceAny and ReplaceHeaders: every text of a body tree is rendered exactly once,
    in an arbitrary order of the maps, over one shared variable map. */
module BodyTree {
  import opened Text
  import opened Rewriting
  import opened Template
  import opened Counters
  import TemplateLaws

  /** A key of map[any]any. */
  datatype Key = Name(name: string) | NotText(id: int)

  /** A decoded YAML or JSON value; Scalar stands for the values the default case passes on. */
  datatype Any =
    | Str(text: string)
    | Obj(fields: map<string, Any>)
    | Mixed(entries: map<Key, Any>)
    | Arr(items: seq<Any>)
    | Scalar(id: int)

  datatype Step = Field(name: string) | Index(i: nat)

  type Path = seq<Step>

  /** The part of the value the code keeps at a step; entries under keys that are no text are dropped. */
  function Child(v: Any, s: Step): Option<Any> {
    match v
    case Obj(m) => if s.Field? && s.name in m then Some(m[s.name]) else None
    case Mixed(m) => if s.Field? && Name(s.name) in m then Some(m[Name(s.name)]) else None
    case Arr(a) => if s.Index? && s.i < |a| then Some(a[s.i]) else None
    case _ => None
  }

  function At(v: Any, p: Path): Option<Any>
    decreases |p|
  {
    if p == [] then Some(v)
    else match Child(v, p[0])
      case None => None
      case Some(c) => At(c, p[1..])
  }

  function LeafAt(v: Any, p: Path): Option<string> {
    match At(v, p) case Some(Str(t)) => Some(t) case _ => None
  }

  /** The kind of a node, with its size or content where rendering must keep it. */
  datatype Kind = KText | KObject | KArray(length: nat) | KScalar(id: int)

  function KindOf(v: Any): Kind {
    match v
    case Str(_) => KText
    case Obj(_) => KObject
    case Mixed(_) => KObject
    case Arr(a) => KArray(|a|)
    case Scalar(n) => KScalar(n)
  }

  function KindAt(v: Any, p: Path): Option<Kind> {
    match At(v, p) case None => None case Some(n) => Some(KindOf(n))
  }

  /** The steps that lead to a child. */
  function Steps(v: Any): (steps: set<Step>)
    ensures forall t :: t in steps <==> Child(v, t).Some?
  {
    match v
    case Obj(m) => set k | k in m :: Field(k)
    case Mixed(m) => set k | k in m && k.Name? :: Field(k.name)
    case Arr(a) => set i: nat | i < |a| :: Index(i)
    case _ => {}
  }

  ghost function Pick(steps: set<Step>): (t: Step)
    requires steps != {}
    ensures t in steps
  {
    var t :| t in steps; t
  }

  /** All the texts of a tree, with multiplicity. */
  ghost function Leaves(v: Any): multiset<string>
    decreases v, 1, 0
  {
    if v.Str? then multiset{v.text} else LeavesAmong(v, Steps(v))
  }

  ghost function LeavesAmong(v: Any, steps: set<Step>): multiset<string>
    requires steps <= Steps(v)
    decreases v, 0, |steps|
  {
    if steps == {} then multiset{}
    else
      var t := Pick(steps);
      Leaves(Child(v, t).value) + LeavesAmong(v, steps - {t})
  }

  ghost function Sum(f: Step -> multiset<string>, steps: set<Step>): multiset<string> {
    if steps == {} then multiset{} else f(Pick(steps)) + Sum(f, steps - {Pick(steps)})
  }

  lemma {:induction false} SumInsert(f: Step -> multiset<string>, steps: set<Step>, s: Step)
    requires s !in steps
    ensures Sum(f, steps + {s}) == Sum(f, steps) + f(s)
    decreases |steps|
  {
    var t := Pick(steps + {s});
    if t == s {
      assert steps + {s} - {s} == steps;
    } else {
      var rest := steps - {t};
      assert steps + {s} - {t} == rest + {s} && rest + {t} == steps;
      SumInsert(f, rest, s);
      SumInsert(f, rest, t);
    }
  }

  lemma {:induction false} LeavesAmongSum(v: Any, steps: set<Step>, f: Step -> multiset<string>)
    requires steps <= Steps(v) && forall t <- Steps(v) :: f(t) == Leaves(Child(v, t).value)
    ensures LeavesAmong(v, steps) == Sum(f, steps)
    decreases |steps|
  {
    if steps != {} { LeavesAmongSum(v, steps - {Pick(steps)}, f); }
  }

  lemma LeavesAmongInsert(v: Any, steps: set<Step>, s: Step)
    requires steps <= Steps(v) && s in Steps(v) && s !in steps
    ensures LeavesAmong(v, steps + {s}) == LeavesAmong(v, steps) + Leaves(Child(v, s).value)
  {
    var f := (t: Step) => if t in Steps(v) then Leaves(Child(v, t).value) else multiset{};
    LeavesAmongSum(v, steps, f);
    LeavesAmongSum(v, steps + {s}, f);
    SumInsert(f, steps, s);
  }

  lemma {:induction false} LeavesAmongSame(v: Any, v2: Any, steps: set<Step>)
    requires steps <= Steps(v) && forall t <- steps :: Child(v2, t) == Child(v, t)
    ensures steps <= Steps(v2) && LeavesAmong(v2, steps) == LeavesAmong(v, steps)
    decreases |steps|
  {
    assert forall t <- steps :: t in Steps(v) && Child(v2, t).Some?;
    if steps != {} { LeavesAmongSame(v, v2, steps - {Pick(steps)}); }
  }

  // ---- Sequences of renderings over shared state ----

  /** The shared state the renderings write: the variables and the random texts drawn. */
  datatype Snap = Snap(vars: Env, used: nat)

  /** One ReplaceString call: input, output, the iteration order it met, and the state after it. */
  datatype Render = Render(text: string, out: string, order: seq<string>, after: Snap)

  datatype Visit = Visit(path: Path, render: Render)

  ghost predicate Fires(r: Render, s: Snap, draw: nat -> string) {
    && r.after.vars == AfterCounters(r.text, s.vars).1
    && IsOrder(r.order, r.after.vars.Keys)
    && Replaced(r.text, s.vars, r.order, draw, s.used) == (r.out, r.after.used)
  }

  /** What ReplaceString guarantees of each call, for one source of random texts. */
  ghost function Firing(draw: nat -> string): (Render, Snap) -> bool {
    (r, s) => Fires(r, s, draw)
  }

  /** The renderings happened one after another, from one state to the other. */
  ghost predicate Rendered(rs: seq<Render>, s: Snap, fires: (Render, Snap) -> bool, s': Snap) {
    if rs == [] then s' == s
    else fires(rs[0], s) && Rendered(rs[1..], rs[0].after, fires, s')
  }

  function Texts(rs: seq<Render>): seq<string> {
    seq(|rs|, i requires 0 <= i < |rs| => rs[i].text)
  }

  function Renders(log: seq<Visit>): seq<Render> {
    seq(|log|, i requires 0 <= i < |log| => log[i].render)
  }

  lemma {:induction false} RenderedAppend(a: seq<Render>, b: seq<Render>, s: Snap, fires: (Render, Snap) -> bool,
                                          s1: Snap, s2: Snap)
    requires Rendered(a, s, fires, s1) && Rendered(b, s1, fires, s2)
    ensures Rendered(a + b, s, fires, s2)
  {
    if a == [] {
      assert a + b == b;
    } else {
      assert (a + b)[1..] == a[1..] + b;
      RenderedAppend(a[1..], b, a[0].after, fires, s1, s2);
    }
  }

  /** The variables at the end are the effect of the rendered texts in their order. */
  lemma {:induction false} RenderedEffect(rs: seq<Render>, s: Snap, draw: nat -> string, s': Snap)
    requires Rendered(rs, s, Firing(draw), s')
    ensures s'.vars == Effect(Texts(rs), s.vars)
  {
    if rs != [] {
      RenderedEffect(rs[1..], rs[0].after, draw, s');
      assert Texts(rs)[1..] == Texts(rs[1..]);
    }
  }

  // ---- What a traversal of a tree achieves ----

  /** The log visits every text of v exactly once, out holds the results at the same places, and
      nothing else of the tree changed. */
  ghost predicate Covers(v: Any, log: seq<Visit>, out: Any) {
    && (forall i, j | 0 <= i < j < |log| :: log[i].path != log[j].path)
    && (forall i | 0 <= i < |log| :: LeafAt(v, log[i].path) == Some(log[i].render.text)
                                  && LeafAt(out, log[i].path) == Some(log[i].render.out))
    && (forall p | LeafAt(v, p).Some? :: Visited(log, p))
    && (forall p :: KindAt(out, p) == KindAt(v, p))
  }

  ghost predicate Visited(log: seq<Visit>, p: Path) {
    exists i :: 0 <= i < |log| && log[i].path == p
  }

  function Below(s: Step, log: seq<Visit>): seq<Visit> {
    seq(|log|, i requires 0 <= i < |log| => Visit([s] + log[i].path, log[i].render))
  }

  /** v2 is v with one more child. */
  ghost predicate Extends(v: Any, s: Step, c: Any, v2: Any) {
    && Child(v, s).None? && Child(v2, s) == Some(c) && !v.Str? && !v2.Str?
    && forall t | t != s :: Child(v2, t) == Child(v, t)
  }

  lemma ItemExtends(a: seq<Any>, c: Any)
    ensures Extends(Arr(a), Index(|a|), c, Arr(a + [c]))
  {
  }

  lemma FieldExtends(m: map<string, Any>, k: string, c: Any)
    requires k !in m
    ensures Extends(Obj(m), Field(k), c, Obj(m[k := c]))
  {
  }

  lemma ExtendsAt(v: Any, s: Step, c: Any, v2: Any, p: Path)
    requires Extends(v, s, c, v2) && p != []
    ensures At(v2, p) == if p[0] == s then At(c, p[1..]) else At(v, p)
    ensures p[0] == s ==> At(v, p).None?
  {
  }

  lemma BelowLeaf(v: Any, s: Step, c: Any, v2: Any, p: Path)
    requires Extends(v, s, c, v2)
    ensures LeafAt(v2, [s] + p) == LeafAt(c, p)
  {
    ExtendsAt(v, s, c, v2, [s] + p);
    assert ([s] + p)[1..] == p;
  }

  lemma KeptLeaf(v: Any, s: Step, c: Any, v2: Any, p: Path)
    requires Extends(v, s, c, v2) && LeafAt(v, p).Some?
    ensures p != [] && p[0] != s && LeafAt(v2, p) == LeafAt(v, p)
  {
    if p != [] { ExtendsAt(v, s, c, v2, p); }
  }

  /** Adding one rendered child at a new place. */
  lemma CoversInsert(v: Any, log: seq<Visit>, out: Any, s: Step, c: Any, clog: seq<Visit>, c': Any, v2: Any, out2: Any)
    requires Covers(v, log, out) && Covers(c, clog, c')
    requires Extends(v, s, c, v2) && Extends(out, s, c', out2) && KindOf(v2) == KindOf(out2)
    ensures Covers(v2, log + Below(s, clog), out2)
  {
    var log2 := log + Below(s, clog);
    LeavesKept(v, log, s, c, v2);
    LeavesKept(out, log, s, c', out2);
    forall i | 0 <= i < |clog|
      ensures log2[|log| + i] == Visit([s] + clog[i].path, clog[i].render)
      ensures LeafAt(v2, [s] + clog[i].path) == LeafAt(c, clog[i].path)
      ensures LeafAt(out2, [s] + clog[i].path) == LeafAt(c', clog[i].path)
    {
      BelowLeaf(v, s, c, v2, clog[i].path);
      BelowLeaf(out, s, c', out2, clog[i].path);
    }
    forall i, j | 0 <= i < j < |log2| ensures log2[i].path != log2[j].path {
      DistinctBelow(log, s, clog, i, j);
    }
    forall p | LeafAt(v2, p).Some? ensures Visited(log2, p) {
      ExtendsAt(v, s, c, v2, p);
      VisitedBelow(v, log, s, c, clog, p);
    }
    forall p ensures KindAt(out2, p) == KindAt(v2, p) {
      KindExtends(v, out, s, c, c', v2, out2, p);
    }
  }

  lemma LeavesKept(v: Any, log: seq<Visit>, s: Step, c: Any, v2: Any)
    requires Extends(v, s, c, v2) && forall i | 0 <= i < |log| :: LeafAt(v, log[i].path).Some?
    ensures forall i | 0 <= i < |log| :: log[i].path != [] && log[i].path[0] != s
    ensures forall i | 0 <= i < |log| :: LeafAt(v2, log[i].path) == LeafAt(v, log[i].path)
  {
    forall i | 0 <= i < |log|
      ensures log[i].path != [] && log[i].path[0] != s && LeafAt(v2, log[i].path) == LeafAt(v, log[i].path)
    {
      KeptLeaf(v, s, c, v2, log[i].path);
    }
  }

  lemma KindExtends(v: Any, out: Any, s: Step, c: Any, c': Any, v2: Any, out2: Any, p: Path)
    requires Extends(v, s, c, v2) && Extends(out, s, c', out2) && KindOf(v2) == KindOf(out2)
    requires (forall q :: KindAt(out, q) == KindAt(v, q)) && (forall q :: KindAt(c', q) == KindAt(c, q))
    ensures KindAt(out2, p) == KindAt(v2, p)
  {
    if p != [] {
      ExtendsAt(v, s, c, v2, p);
      ExtendsAt(out, s, c', out2, p);
      assert KindAt(c, p[1..]) == KindAt(c', p[1..]) && KindAt(v, p) == KindAt(out, p);
    }
  }

  lemma DistinctBelow(log: seq<Visit>, s: Step, clog: seq<Visit>, i: nat, j: nat)
    requires forall i, j | 0 <= i < j < |log| :: log[i].path != log[j].path
    requires forall i, j | 0 <= i < j < |clog| :: clog[i].path != clog[j].path
    requires forall i | 0 <= i < |log| :: log[i].path != [] && log[i].path[0] != s
    requires i < j < |log| + |clog|
    ensures (log + Below(s, clog))[i].path != (log + Below(s, clog))[j].path
  {
    var log2 := log + Below(s, clog);
    if i >= |log| {
      assert log2[i].path[1..] == clog[i - |log|].path && log2[j].path[1..] == clog[j - |log|].path;
    } else if j >= |log| {
      assert log2[j].path[0] == s;
    }
  }

  lemma VisitedBelow(v: Any, log: seq<Visit>, s: Step, c: Any, clog: seq<Visit>, p: Path)
    requires forall p | LeafAt(v, p).Some? :: Visited(log, p)
    requires forall p | LeafAt(c, p).Some? :: Visited(clog, p)
    requires p != [] && (if p[0] == s then LeafAt(c, p[1..]) else LeafAt(v, p)).Some?
    ensures Visited(log + Below(s, clog), p)
  {
    var log2 := log + Below(s, clog);
    if p[0] == s {
      assert Visited(clog, p[1..]);
      var i :| 0 <= i < |clog| && clog[i].path == p[1..];
      assert p == [s] + p[1..] && log2[|log| + i].path == p;
    } else {
      assert Visited(log, p);
      var i :| 0 <= i < |log| && log[i].path == p;
      assert log2[i].path == p;
    }
  }

  lemma CoversSame(v: Any, log: seq<Visit>, out: Any, v2: Any)
    requires Covers(v, log, out) && KindOf(v) == KindOf(v2) && !v.Str? && !v2.Str?
    requires forall t :: Child(v2, t) == Child(v, t)
    ensures Covers(v2, log, out)
  {
    forall p ensures LeafAt(v2, p) == LeafAt(v, p) && KindAt(v2, p) == KindAt(v, p) {
    }
  }

  lemma LeavesSame(v: Any, v2: Any)
    requires !v.Str? && !v2.Str? && forall t :: Child(v2, t) == Child(v, t)
    ensures Leaves(v2) == Leaves(v)
  {
    assert Steps(v2) == Steps(v);
    LeavesAmongSame(v, v2, Steps(v));
  }

  /** The whole effect of rendering v: the tree, and the shared state. */
  ghost predicate Traversed(v: Any, log: seq<Visit>, out: Any, s: Snap, fires: (Render, Snap) -> bool, s': Snap) {
    Covers(v, log, out) && multiset(Texts(Renders(log))) == Leaves(v) && Rendered(Renders(log), s, fires, s')
  }

  type Relation = (Any, seq<Visit>, Any, Snap, Snap) -> bool

  /** Traversed, as one relation for each source of random texts. */
  ghost function Traversal(draw: nat -> string): Relation {
    (v, log, out, s, s') => Traversed(v, log, out, s, Firing(draw), s')
  }

  lemma LeavesExtend(v: Any, s: Step, c: Any, v2: Any)
    requires Extends(v, s, c, v2)
    ensures Leaves(v2) == Leaves(v) + Leaves(c)
  {
    assert Steps(v2) == Steps(v) + {s};
    LeavesAmongSame(v, v2, Steps(v));
    LeavesAmongInsert(v2, Steps(v), s);
  }

  lemma RendersBelow(log: seq<Visit>, step: Step, clog: seq<Visit>)
    ensures Renders(log + Below(step, clog)) == Renders(log) + Renders(clog)
    ensures Texts(Renders(log) + Renders(clog)) == Texts(Renders(log)) + Texts(Renders(clog))
  {
  }

  lemma TraversedInsert(v: Any, log: seq<Visit>, out: Any, s: Snap, fires: (Render, Snap) -> bool, s1: Snap,
                        step: Step, c: Any, clog: seq<Visit>, c': Any, s2: Snap, v2: Any, out2: Any)
    requires Traversed(v, log, out, s, fires, s1) && Traversed(c, clog, c', s1, fires, s2)
    requires Extends(v, step, c, v2) && Extends(out, step, c', out2) && KindOf(v2) == KindOf(out2)
    ensures Traversed(v2, log + Below(step, clog), out2, s, fires, s2)
  {
    CoversInsert(v, log, out, step, c, clog, c', v2, out2);
    RenderedAppend(Renders(log), Renders(clog), s, fires, s1, s2);
    RendersBelow(log, step, clog);
    LeavesExtend(v, step, c, v2);
  }

  lemma TraversalInsert(v: Any, log: seq<Visit>, out: Any, s: Snap, draw: nat -> string, s1: Snap,
                        step: Step, c: Any, clog: seq<Visit>, c': Any, s2: Snap, v2: Any, out2: Any)
    requires Traversal(draw)(v, log, out, s, s1) && Traversal(draw)(c, clog, c', s1, s2)
    requires Extends(v, step, c, v2) && Extends(out, step, c', out2) && KindOf(v2) == KindOf(out2)
    ensures Traversal(draw)(v2, log + Below(step, clog), out2, s, s2)
  {
    TraversedInsert(v, log, out, s, Firing(draw), s1, step, c, clog, c', s2, v2, out2);
  }

  lemma TraversedText(t: string, r: Render, s: Snap, fires: (Render, Snap) -> bool)
    requires r.text == t && fires(r, s)
    ensures Traversed(Str(t), [Visit([], r)], Str(r.out), s, fires, r.after)
  {
    var log := [Visit([], r)];
    assert log[0].path == [];
    assert Renders(log) == [r] && [r][1..] == [] && Texts([r]) == [t];
  }

  lemma TraversalText(t: string, r: Render, s: Snap, draw: nat -> string)
    requires r.text == t && Fires(r, s, draw)
    ensures Traversal(draw)(Str(t), [Visit([], r)], Str(r.out), s, r.after)
  {
    TraversedText(t, r, s, Firing(draw));
  }

  lemma TraversedNothing(v: Any, out: Any, s: Snap, fires: (Render, Snap) -> bool)
    requires !v.Str? && (forall t :: Child(v, t) == None == Child(out, t)) && KindOf(v) == KindOf(out)
    ensures Traversed(v, [], out, s, fires, s)
  {
    assert Renders([]) == [] && Texts([]) == [];
    assert Steps(v) == {};
    forall p ensures KindAt(out, p) == KindAt(v, p) && LeafAt(v, p) == None {
    }
  }

  lemma TraversalNothing(v: Any, out: Any, s: Snap, draw: nat -> string)
    requires !v.Str? && (forall t :: Child(v, t) == None == Child(out, t)) && KindOf(v) == KindOf(out)
    ensures Traversal(draw)(v, [], out, s, s)
  {
    TraversedNothing(v, out, s, Firing(draw));
  }

  lemma TraversalSame(v: Any, log: seq<Visit>, out: Any, s: Snap, draw: nat -> string, s': Snap, v2: Any)
    requires Traversal(draw)(v, log, out, s, s') && KindOf(v) == KindOf(v2) && !v.Str? && !v2.Str?
    requires forall t :: Child(v2, t) == Child(v, t)
    ensures Traversal(draw)(v2, log, out, s, s')
  {
    CoversSame(v, log, out, v2);
    LeavesSame(v, v2);
  }

  // ---- Lists are walked in order ----

  /** Where two paths part, the first does not come later in a list. */
  predicate NotAfter(p: Path, q: Path)
    decreases |p|
  {
    || p == [] || q == []
    || (if p[0] == q[0] then NotAfter(p[1..], q[1..]) else p[0].Index? && q[0].Index? ==> p[0].i < q[0].i)
  }

  ghost predicate ListsInOrder(log: seq<Visit>) {
    forall x, y | 0 <= x < y < |log| :: NotAfter(log[x].path, log[y].path)
  }

  lemma OrderedBelow(s: Step, log: seq<Visit>, x: nat, y: nat)
    requires x < y < |log| && ListsInOrder(log)
    ensures NotAfter(Below(s, log)[x].path, Below(s, log)[y].path)
  {
    assert ([s] + log[x].path)[1..] == log[x].path && ([s] + log[y].path)[1..] == log[y].path;
  }

  /** One more child, which in a list comes last. */
  lemma OrderInsert(v: Any, log: seq<Visit>, out: Any, s: Step, clog: seq<Visit>)
    requires Covers(v, log, out) && !v.Str? && Child(v, s).None?
    requires s.Index? ==> forall t | Child(v, t).Some? :: t.Index? && t.i < s.i
    requires ListsInOrder(log) && ListsInOrder(clog)
    ensures ListsInOrder(log + Below(s, clog))
  {
    var more := log + Below(s, clog);
    forall x, y | 0 <= x < y < |more| ensures NotAfter(more[x].path, more[y].path) {
      if x >= |log| {
        OrderedBelow(s, clog, x - |log|, y - |log|);
      } else if y >= |log| {
        FirstSteps(v, log[x].path, s);
        assert more[y].path[0] == s;
      }
    }
  }

  lemma FirstSteps(v: Any, p: Path, s: Step)
    requires LeafAt(v, p).Some? && !v.Str? && Child(v, s).None?
    ensures p != [] && Child(v, p[0]).Some? && p[0] != s
  {
  }

  // ---- The code ----

  /** The map without the keys still to come. */
  function Except<K, V>(m: map<K, V>, left: set<K>): map<K, V> {
    map k | k in m && k !in left :: m[k]
  }

  method ReplaceAny(v: Any, vars: Vars, rng: Random) returns (out: Any, ghost log: seq<Visit>)
    modifies vars, rng
    ensures Traversal(rng.stream)(v, log, out, Snap(old(vars.entries), old(rng.used)), Snap(vars.entries, rng.used))
    ensures ListsInOrder(log)
    decreases v, 1
  {
    match v
    case Str(t) =>
      var text, order := ReplaceString(t, vars, rng);
      out := Str(text);
      ghost var r := Render(t, text, order, Snap(vars.entries, rng.used));
      log := [Visit([], r)];
      TraversalText(t, r, Snap(old(vars.entries), old(rng.used)), rng.stream);
    case Obj(m) =>
      var fields;
      fields, log := ReplaceMap(m, vars, rng);
      out := Obj(fields);
    case Mixed(m) =>
      out, log := ReplaceMixed(m, vars, rng);
    case Arr(a) =>
      out, log := ReplaceItems(a, vars, rng);
    case Scalar(_) =>
      out, log := v, [];
      TraversalNothing(v, v, Snap(vars.entries, rng.used), rng.stream);
  }

  /** All entries but those of left are rendered. */
  ghost predicate MixedDone(m: map<Key, Any>, left: set<Key>, log: seq<Visit>, fields: map<string, Any>,
                            s: Snap, draw: nat -> string, s1: Snap) {
    && (forall n :: n in fields <==> Name(n) in m && Name(n) !in left)
    && Traversal(draw)(Mixed(Except(m, left)), log, Obj(fields), s, s1)
  }

  lemma MixedExtends(m: map<Key, Any>, left: set<Key>, n: string)
    requires Name(n) in m && Name(n) in left
    ensures Extends(Mixed(Except(m, left)), Field(n), m[Name(n)], Mixed(Except(m, left - {Name(n)})))
  {
  }

  lemma MixedText(m: map<Key, Any>, left: set<Key>, log: seq<Visit>, fields: map<string, Any>,
                  s: Snap, draw: nat -> string, s1: Snap, n: string, clog: seq<Visit>, c: Any, s2: Snap)
    requires MixedDone(m, left, log, fields, s, draw, s1) && Name(n) in m && Name(n) in left
    requires Traversal(draw)(m[Name(n)], clog, c, s1, s2)
    ensures MixedDone(m, left - {Name(n)}, log + Below(Field(n), clog), fields[n := c], s, draw, s2)
  {
    FieldExtends(fields, n, c);
    MixedExtends(m, left, n);
    TraversalInsert(Mixed(Except(m, left)), log, Obj(fields), s, draw, s1, Field(n), m[Name(n)], clog, c, s2,
                    Mixed(Except(m, left - {Name(n)})), Obj(fields[n := c]));
  }

  lemma MixedOther(m: map<Key, Any>, left: set<Key>, log: seq<Visit>, fields: map<string, Any>,
                   s: Snap, draw: nat -> string, s1: Snap, k: Key)
    requires MixedDone(m, left, log, fields, s, draw, s1) && k in m && k in left && !k.Name?
    ensures MixedDone(m, left - {k}, log, fields, s, draw, s1)
  {
    TraversalSame(Mixed(Except(m, left)), log, Obj(fields), s, draw, s1, Mixed(Except(m, left - {k})));
  }

  /** The case map[any]any: the result has text keys only. */
  method ReplaceMixed(m: map<Key, Any>, vars: Vars, rng: Random) returns (out: Any, ghost log: seq<Visit>)
    modifies vars, rng
    ensures Traversal(rng.stream)(Mixed(m), log, out, Snap(old(vars.entries), old(rng.used)),
                                  Snap(vars.entries, rng.used))
    ensures ListsInOrder(log)
    decreases Mixed(m), 0
  {
    var fields: map<string, Any> := map[];
    var left := m.Keys;
    ghost var s := Snap(vars.entries, rng.used);
    log := [];
    TraversalNothing(Mixed(Except(m, left)), Obj(fields), s, rng.stream);
    while left != {}
      invariant left <= m.Keys
      invariant MixedDone(m, left, log, fields, s, rng.stream, Snap(vars.entries, rng.used)) && ListsInOrder(log)
    {
      var k :| k in left;
      ghost var s1 := Snap(vars.entries, rng.used);
      if k.Name? {
        var c, clog := ReplaceAny(m[k], vars, rng);
        OrderInsert(Mixed(Except(m, left)), log, Obj(fields), Field(k.name), clog);
        MixedText(m, left, log, fields, s, rng.stream, s1, k.name, clog, c, Snap(vars.entries, rng.used));
        fields := fields[k.name := c];
        log := log + Below(Field(k.name), clog);
      } else {
        MixedOther(m, left, log, fields, s, rng.stream, s1, k);
      }
      left := left - {k};
    }
    assert Except(m, {}) == m;
    out := Obj(fields);
  }

  lemma PrefixGrows(a: seq<Any>, i: nat)
    requires i < |a|
    ensures a[..i] + [a[i]] == a[..i + 1]
  {
  }

  method ReplaceItems(a: seq<Any>, vars: Vars, rng: Random) returns (out: Any, ghost log: seq<Visit>)
    modifies vars, rng
    ensures Traversal(rng.stream)(Arr(a), log, out, Snap(old(vars.entries), old(rng.used)),
                                  Snap(vars.entries, rng.used))
    ensures ListsInOrder(log)
    decreases Arr(a), 0
  {
    var items: seq<Any> := [];
    ghost var part: seq<Any> := [];
    ghost var s := Snap(vars.entries, rng.used);
    log := [];
    TraversalNothing(Arr(part), Arr(items), s, rng.stream);
    for i := 0 to |a|
      invariant |items| == i && part == a[..i]
      invariant Traversal(rng.stream)(Arr(part), log, Arr(items), s, Snap(vars.entries, rng.used)) && ListsInOrder(log)
    {
      ghost var s1 := Snap(vars.entries, rng.used);
      var c, clog := ReplaceAny(a[i], vars, rng);
      OrderInsert(Arr(part), log, Arr(items), Index(i), clog);
      ItemExtends(part, a[i]);
      ItemExtends(items, c);
      TraversalInsert(Arr(part), log, Arr(items), s, rng.stream, s1, Index(i), a[i], clog, c,
                      Snap(vars.entries, rng.used), Arr(part + [a[i]]), Arr(items + [c]));
      PrefixGrows(a, i);
      part := part + [a[i]];
      items := items + [c];
      log := log + Below(Index(i), clog);
    }
    assert part == a;
    out := Arr(items);
  }

  method ReplaceMap(m: map<string, Any>, vars: Vars, rng: Random) returns (res: map<string, Any>, ghost log: seq<Visit>)
    modifies vars, rng
    ensures Traversal(rng.stream)(Obj(m), log, Obj(res), Snap(old(vars.entries), old(rng.used)),
                                  Snap(vars.entries, rng.used))
    ensures ListsInOrder(log)
    decreases Obj(m), 0
  {
    res := map[];
    var left := m.Keys;
    ghost var part: map<string, Any> := map[];
    ghost var s := Snap(vars.entries, rng.used);
    log := [];
    TraversalNothing(Obj(part), Obj(res), s, rng.stream);
    while left != {}
      invariant left <= m.Keys && part.Keys == m.Keys - left == res.Keys && (forall k <- part :: part[k] == m[k])
      invariant Traversal(rng.stream)(Obj(part), log, Obj(res), s, Snap(vars.entries, rng.used)) && ListsInOrder(log)
    {
      var k :| k in left;
      left := left - {k};
      ghost var s1 := Snap(vars.entries, rng.used);
      var c, clog := ReplaceAny(m[k], vars, rng);
      OrderInsert(Obj(part), log, Obj(res), Field(k), clog);
      FieldExtends(part, k, m[k]);
      FieldExtends(res, k, c);
      TraversalInsert(Obj(part), log, Obj(res), s, rng.stream, s1, Field(k), m[k], clog, c,
                      Snap(vars.entries, rng.used), Obj(part[k := m[k]]), Obj(res[k := c]));
      part := part[k := m[k]];
      res := res[k := c];
      log := log + Below(Field(k), clog);
    }
    assert part == m;
  }

  // ---- Counters over a tree ----

  /** Some listing of a multiset; which one does not matter to the totals. */
  ghost function Listing(ms: multiset<string>): (ls: seq<string>)
    ensures multiset(ls) == ms
    decreases |ms|
  {
    if ms == multiset{} then []
    else
      var t :| t in ms;
      assert |ms - multiset{t}| < |ms|;
      [t] + Listing(ms - multiset{t})
  }

  /** How often op is applied to c in all the texts of the tree. */
  ghost function TreeUses(op: string, c: string, v: Any): nat {
    Total(op, c, Listing(Leaves(v)))
  }

  ghost predicate TreeOfTemplates(v: Any) {
    forall t <- Leaves(v) :: IsTemplate(t)
  }

  /** Conservation over a nested body, for every traversal order: p increments and q decrements of
      c move it by p - q, and without decrements the values produced are k+1 .. k+p in order. */
  lemma TreeConserves(v: Any, log: seq<Visit>, out: Any, s: Snap, draw: nat -> string, s': Snap, c: string, k: int)
    requires Traversed(v, log, out, s, Firing(draw), s') && TreeOfTemplates(v) && Counter(s.vars, c) == Some(k)
    ensures Counter(s'.vars, c) == Some(Net(k, TreeUses("++", c, v), TreeUses("--", c, v)))
    ensures TreeUses("--", c, v) == 0 ==>
              Counted(ProducedAll(c, Texts(Renders(log)), s.vars), k, 1, TreeUses("++", c, v))
  {
    var ls := Texts(Renders(log));
    CounterInt64(s.vars, c);
    RenderedEffect(Renders(log), s, draw, s');
    assert forall t <- ls :: t in multiset(ls);
    TotalOrderFree("++", c, ls, Listing(Leaves(v)));
    TotalOrderFree("--", c, ls, Listing(Leaves(v)));
    EffectConserves(ls, s.vars, c, k);
    if TreeUses("--", c, v) == 0 { EffectCounts(ls, s.vars, c, k); }
  }

  // ---- What the increments show in the rendered tree ----

  /** The texts use no variable whose value carries a brace. */
  ghost predicate AllClean(vars: Env, ls: seq<string>) {
    forall t <- ls :: Clean(vars, Parse(t))
  }

  lemma CountersKeepClean(s: string, vars: Env, ls: seq<string>)
    requires IsTemplate(s) && AllClean(vars, ls)
    ensures AllClean(AfterCounters(s, vars).1, ls)
  {
    CountersOnStrings(s, vars);
    StepWellFormed("++", 1, Parse(s), State(vars, 0));
    var (g1, st1) := ScanSegments(INCREMENT, Parse(s), State(vars, 0));
    forall t | t in ls ensures Clean(AfterCounters(s, vars).1, Parse(t)) {
      ScanSegmentsRewrites(INCREMENT, Parse(s), State(vars, 0), Parse(t));
      ScanSegmentsRewrites(DECREMENT, g1, State(st1.vars, 0), Parse(t));
    }
  }

  /** What stands in the results at the places of the increments of c, in rendering order. gs reads
      each result segment by segment. */
  function Shown(c: string, rs: seq<Render>, gs: seq<seq<Segment>>): seq<string>
    requires |gs| == |rs| && forall n | 0 <= n < |rs| :: |gs[n]| == |Parse(rs[n].text)|
  {
    if rs == [] then [] else Produced("++", c, Parse(rs[0].text), gs[0]) + Shown(c, rs[1..], gs[1..])
  }

  /** gs[n] prints the n-th result, in step with the segments of its text. */
  ghost predicate Reads(rs: seq<Render>, gs: seq<seq<Segment>>) {
    && |gs| == |rs|
    && forall n | 0 <= n < |rs| :: rs[n].out == Print(gs[n]) && |gs[n]| == |Parse(rs[n].text)|
  }

  lemma RenderShows(r: Render, s: Snap, draw: nat -> string, c: string, k: int) returns (g: seq<Segment>)
    requires Fires(r, s, draw) && IsTemplate(r.text) && Clean(s.vars, Parse(r.text)) && Counter(s.vars, c) == Some(k)
    ensures r.out == Print(g) && |g| == |Parse(r.text)|
    ensures Counted(Produced("++", c, Parse(r.text), g), k, 1, Uses("++", c, r.text))
  {
    TemplateLaws.OrderFree(r.text, s.vars, r.order, draw, s.used);
    TemplateLaws.ProducedIsShown(Parse(r.text), s.vars, draw, s.used, c);
    TemplateConserves(r.text, s.vars, c, k);
    g := Meaning(Parse(r.text), s.vars, draw, s.used).0;
  }

  lemma RenderMoves(r: Render, s: Snap, draw: nat -> string, rest: seq<string>, c: string, k: int)
    requires Fires(r, s, draw) && IsTemplate(r.text) && AllClean(s.vars, rest)
    requires Counter(s.vars, c) == Some(k) && Uses("--", c, r.text) == 0
    ensures AllClean(r.after.vars, rest) && Counter(r.after.vars, c) == Some(Moved(k, 1, Uses("++", c, r.text)))
  {
    CountersKeepClean(r.text, s.vars, rest);
    TemplateConserves(r.text, s.vars, c, k);
    assert Net(k, Uses("++", c, r.text), 0) == Moved(k, 1, Uses("++", c, r.text));
  }

  lemma ReadsMore(c: string, rs: seq<Render>, g: seq<Segment>, gs: seq<seq<Segment>>)
    requires rs != [] && Reads(rs[1..], gs) && rs[0].out == Print(g) && |g| == |Parse(rs[0].text)|
    ensures Reads(rs, [g] + gs)
    ensures Shown(c, rs, [g] + gs) == Produced("++", c, Parse(rs[0].text), g) + Shown(c, rs[1..], gs)
  {
    assert ([g] + gs)[1..] == gs;
    assert forall n | 0 < n < |rs| :: rs[n] == rs[1..][n - 1];
  }

  /** These renderings can be followed: templates over clean values, and no decrement of c. */
  ghost predicate Following(rs: seq<Render>, s: Snap, c: string, k: int) {
    && AllTemplates(Texts(rs)) && AllClean(s.vars, Texts(rs))
    && Counter(s.vars, c) == Some(k) && InInt64(k) && Total("--", c, Texts(rs)) == 0
  }

  lemma FollowingNext(rs: seq<Render>, s: Snap, draw: nat -> string, c: string, k: int)
    requires rs != [] && Following(rs, s, c, k) && Fires(rs[0], s, draw)
    ensures IsTemplate(rs[0].text) && Clean(s.vars, Parse(rs[0].text))
    ensures Following(rs[1..], rs[0].after, c, Moved(k, 1, Uses("++", c, rs[0].text)))
    ensures Total("++", c, Texts(rs)) == Uses("++", c, rs[0].text) + Total("++", c, Texts(rs[1..]))
  {
    var ls := Texts(rs);
    assert ls[0] == rs[0].text && ls[0] in ls && ls[1..] == Texts(rs[1..]);
    assert forall t :: t in ls[1..] ==> t in ls;
    RenderMoves(rs[0], s, draw, ls[1..], c, k);
  }

  lemma {:induction false} RendersShow(rs: seq<Render>, s: Snap, draw: nat -> string, s': Snap, c: string, k: int)
    returns (gs: seq<seq<Segment>>)
    requires Rendered(rs, s, Firing(draw), s') && Following(rs, s, c, k)
    ensures Reads(rs, gs) && Counted(Shown(c, rs, gs), k, 1, Total("++", c, Texts(rs)))
  {
    if rs == [] {
      gs := [];
    } else {
      var r, p := rs[0], Uses("++", c, rs[0].text);
      FollowingNext(rs, s, draw, c, k);
      var g := RenderShows(r, s, draw, c, k);
      var more := RendersShow(rs[1..], r.after, draw, s', c, Moved(k, 1, p));
      ReadsMore(c, rs, g, more);
      gs := [g] + more;
      CountedAppend(Produced("++", c, Parse(r.text), g), Shown(c, rs[1..], more), k, 1, p,
                    Total("++", c, Texts(rs[1..])));
    }
  }

  lemma TreeFollowing(v: Any, log: seq<Visit>, s: Snap, c: string, k: int)
    requires multiset(Texts(Renders(log))) == Leaves(v) && TreeOfTemplates(v) && Counter(s.vars, c) == Some(k)
    requires (forall t <- Leaves(v) :: Clean(s.vars, Parse(t))) && TreeUses("--", c, v) == 0
    ensures Following(Renders(log), s, c, k) && Total("++", c, Texts(Renders(log))) == TreeUses("++", c, v)
  {
    var ls := Texts(Renders(log));
    CounterInt64(s.vars, c);
    assert forall t <- ls :: t in multiset(ls);
    TotalOrderFree("++", c, ls, Listing(Leaves(v)));
    TotalOrderFree("--", c, ls, Listing(Leaves(v)));
  }

  /** Every text of the rendered tree, read segment by segment, shows at the increments of c the
      numbers k+1 .. k+p, each once, in the order of the traversal. */
  lemma TreeShows(v: Any, log: seq<Visit>, out: Any, s: Snap, draw: nat -> string, s': Snap, c: string, k: int)
    returns (gs: seq<seq<Segment>>)
    requires Traversed(v, log, out, s, Firing(draw), s') && TreeOfTemplates(v) && Counter(s.vars, c) == Some(k)
    requires (forall t <- Leaves(v) :: Clean(s.vars, Parse(t))) && TreeUses("--", c, v) == 0
    ensures Reads(Renders(log), gs)
    ensures forall n | 0 <= n < |log| :: LeafAt(out, log[n].path) == Some(Print(gs[n]))
    ensures Counted(Shown(c, Renders(log), gs), k, 1, TreeUses("++", c, v))
  {
    TreeFollowing(v, log, s, c, k);
    gs := RendersShow(Renders(log), s, draw, s', c, k);
    LeavesRead(v, log, out, gs);
  }

  lemma LeavesRead(v: Any, log: seq<Visit>, out: Any, gs: seq<seq<Segment>>)
    requires Covers(v, log, out) && Reads(Renders(log), gs)
    ensures forall n | 0 <= n < |log| :: LeafAt(out, log[n].path) == Some(Print(gs[n]))
  {
    assert forall n | 0 <= n < |log| :: Renders(log)[n] == log[n].render;
  }
}
