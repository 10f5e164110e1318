/** When the guard stops a whole request, told from the configuration and the variables before the
    call, and exactly when the order of the headers decides it. */
module RequestGuard {
  import opened Text
  import opened Sequences
  import opened Rewriting
  import opened Template
  import opened TemplateLaws
  import opened Counters
  import opened BodyTree
  import HttpTrigger
  import Operators
  import TemplateOrder

  // ---- Parts that need names and create names ----

  /** needs: names that must be defined before; creates: names defined after. */
  datatype Part = Part(needs: set<string>, creates: set<string>)

  /** In this order every part finds what it needs. */
  predicate Flows(parts: seq<Part>, known: set<string>)
    decreases |parts|
  {
    parts == [] || (parts[0].needs <= known && Flows(parts[1..], known + parts[0].creates))
  }

  lemma {:induction false} FlowsMore(parts: seq<Part>, known: set<string>, more: set<string>)
    requires Flows(parts, known) && known <= more
    ensures Flows(parts, more)
    decreases |parts|
  {
    if parts != [] { FlowsMore(parts[1..], known + parts[0].creates, more + parts[0].creates); }
  }

  /** All parts find what they need at the start. */
  predicate AllReady(parts: seq<Part>, known: set<string>) {
    forall p <- parts :: p.needs <= known
  }

  lemma {:induction false} ReadyFlows(parts: seq<Part>, known: set<string>)
    requires AllReady(parts, known)
    ensures Flows(parts, known)
    decreases |parts|
  {
    if parts != [] {
      ReadyFlows(parts[1..], known);
      FlowsMore(parts[1..], known, known + parts[0].creates);
    }
  }

  /** The first part that is ready, or the length. */
  function FirstReady(parts: seq<Part>, known: set<string>): (n: nat)
    ensures n <= |parts| && (n < |parts| ==> parts[n].needs <= known)
    ensures forall i | 0 <= i < n :: !(parts[i].needs <= known)
  {
    if parts == [] || parts[0].needs <= known then 0 else 1 + FirstReady(parts[1..], known)
  }

  function Without(parts: seq<Part>, n: nat): (rest: seq<Part>)
    requires n < |parts|
    ensures |rest| == |parts| - 1
  {
    parts[..n] + parts[n + 1..]
  }

  /** Taking the first ready part again and again uses up all. */
  predicate Settles(parts: seq<Part>, known: set<string>)
    decreases |parts|
  {
    parts == [] || (var n := FirstReady(parts, known);
                    n < |parts| && Settles(Without(parts, n), known + parts[n].creates))
  }

  /** A part that is ready may as well come first. */
  lemma {:induction false} FlowsWithout(parts: seq<Part>, n: nat, known: set<string>)
    requires n < |parts| && Flows(parts, known)
    ensures Flows(Without(parts, n), known + parts[n].creates)
    decreases |parts|
  {
    if n == 0 {
      assert Without(parts, 0) == parts[1..];
    } else {
      var more := known + parts[0].creates;
      FlowsWithout(parts[1..], n - 1, more);
      assert Without(parts, n)[0] == parts[0] && Without(parts, n)[1..] == Without(parts[1..], n - 1);
      assert known + parts[n].creates + parts[0].creates == more + parts[n].creates;
    }
  }

  /** Some order works exactly if the greedy one does. */
  lemma {:induction false} FlowingSettles(parts: seq<Part>, order: seq<Part>, known: set<string>)
    requires multiset(order) == multiset(parts) && Flows(order, known)
    ensures Settles(parts, known)
    decreases |parts|
  {
    if parts != [] {
      assert parts[0] in multiset(order);
      var n := FirstReady(parts, known);
      assert order[0] in multiset(parts);
      var i :| 0 <= i < |parts| && parts[i] == order[0];
      assert n < |parts|;
      assert parts[n] in multiset(order);
      var m :| 0 <= m < |order| && order[m] == parts[n];
      FlowsWithout(order, m, known);
      MultisetRemove(order, m);
      MultisetRemove(parts, n);
      FlowingSettles(Without(parts, n), Without(order, m), known + parts[n].creates);
    } else {
      assert |multiset(order)| == 0;
    }
  }

  lemma {:induction false} SettlingFlows(parts: seq<Part>, known: set<string>) returns (order: seq<Part>)
    requires Settles(parts, known)
    ensures multiset(order) == multiset(parts) && Flows(order, known)
    decreases |parts|
  {
    if parts == [] {
      order := [];
    } else {
      var n := FirstReady(parts, known);
      var rest := SettlingFlows(Without(parts, n), known + parts[n].creates);
      MultisetRemove(parts, n);
      order := [parts[n]] + rest;
      assert order[1..] == rest;
    }
  }

  /** All orders agree. */
  ghost predicate OrderNeverMatters(parts: seq<Part>, known: set<string>) {
    forall a, b | multiset(a) == multiset(parts) && multiset(b) == multiset(parts) ::
      Flows(a, known) <==> Flows(b, known)
  }

  lemma UnreadyFirst(parts: seq<Part>, known: set<string>, p: Part) returns (order: seq<Part>)
    requires p in parts && !(p.needs <= known)
    ensures multiset(order) == multiset(parts) && !Flows(order, known)
  {
    var n :| 0 <= n < |parts| && parts[n] == p;
    MultisetRemove(parts, n);
    assert p in multiset(parts);
    order := [p] + Without(parts, n);
  }

  /** Exactly: either every part is ready at the start, or no order works. */
  lemma OrderNeverMattersExactly(parts: seq<Part>, known: set<string>)
    ensures OrderNeverMatters(parts, known) <==> AllReady(parts, known) || !Settles(parts, known)
  {
    if AllReady(parts, known) {
      forall a | multiset(a) == multiset(parts) ensures Flows(a, known) {
        assert forall p <- a :: p in multiset(parts);
        ReadyFlows(a, known);
      }
    } else if !Settles(parts, known) {
      forall a | multiset(a) == multiset(parts) ensures !Flows(a, known) {
        if Flows(a, known) { FlowingSettles(parts, a, known); }
      }
    } else {
      var p :| p in parts && !(p.needs <= known);
      var bad := UnreadyFirst(parts, known, p);
      var good := SettlingFlows(parts, known);
    }
  }

  // ---- Texts as parts ----

  function Created(segs: seq<Segment>): set<string> {
    (set g | g in segs && g.Hole? && OpName("++", g.inner).Some? :: OpName("++", g.inner).value)
    + (set g | g in segs && g.Hole? && OpName("--", g.inner).Some? :: OpName("--", g.inner).value)
  }

  /** No counter on an integer or absent name, no accepted generator. */
  predicate Unhandled(x: string, vars: Env) {
    !Handles(INCREMENT, x, vars) && !Handles(DECREMENT, x, vars) && !Handles(Generator(_ => ""), x, vars)
  }

  /** The names a text needs, and does not create itself. */
  function Needed(segs: seq<Segment>, vars: Env): set<string> {
    (set g | g in segs && g.Hole? && Unhandled(g.inner, vars) :: g.inner) - Created(segs)
  }

  function PartOf(text: string, vars: Env): Part {
    Part(Needed(Parse(text), vars), Created(Parse(text)))
  }

  function PartsOf(texts: seq<string>, vars: Env): seq<Part> {
    seq(|texts|, n requires 0 <= n < |texts| => PartOf(texts[n], vars))
  }

  lemma CreatedIs(segs: seq<Segment>, k: string)
    ensures k in Created(segs) <==> Creates(segs, k)
  {
    if k in Created(segs) {
      var g :| g in segs && g.Hole? && (OpName("++", g.inner) == Some(k) || OpName("--", g.inner) == Some(k));
      assert Hole(g.inner) in segs;
    }
    if Creates(segs, k) {
      var x :| Hole(x) in segs && (OpName("++", x) == Some(k) || OpName("--", x) == Some(k));
      assert Hole(x).inner == x;
    }
  }

  /** One text: the guard sees something left exactly if a needed name is not defined. */
  lemma GuardByNeeds(r: Render, s: Snap, draw: nat -> string)
    requires Fires(r, s, draw) && IsTemplate(r.text) && Clean(s.vars, Parse(r.text)) && forall i :: BraceFree(draw(i))
    ensures HasUnresolved(r.out) <==> !(Needed(Parse(r.text), s.vars) <= s.vars.Keys)
  {
    var segs := Parse(r.text);
    HttpTrigger.RenderGuard(r, s, draw);
    forall x | Hole(x) in segs ensures !Resolvable(x, segs, s.vars) <==> x in Needed(segs, s.vars) && x !in s.vars {
      CreatedIs(segs, x);
    }
    if HasUnresolved(r.out) {
      var x :| Hole(x) in segs && !Resolvable(x, segs, s.vars);
      assert x in Needed(segs, s.vars);
    } else {
      forall x | x in Needed(segs, s.vars) ensures x in s.vars {
        assert Hole(x) in segs;
      }
    }
  }

  /** The same names hold integers, or nothing. */
  ghost predicate SameCounters(a: Env, b: Env) {
    forall n :: Counter(a, n).Some? <==> Counter(b, n).Some?
  }

  lemma NeedsStay(segs: seq<Segment>, a: Env, b: Env)
    requires SameCounters(a, b)
    ensures Needed(segs, a) == Needed(segs, b)
  {
    forall x ensures Unhandled(x, a) <==> Unhandled(x, b) {
    }
  }

  lemma RenderDefines(r: Render, s: Snap, draw: nat -> string)
    requires Fires(r, s, draw) && IsTemplate(r.text) && Clean(s.vars, Parse(r.text))
    ensures r.after.vars.Keys == s.vars.Keys + Created(Parse(r.text)) && SameCounters(s.vars, r.after.vars)
  {
    CountersRefine(r.text, s.vars);
    forall k ensures k in r.after.vars.Keys <==> k in s.vars.Keys + Created(Parse(r.text)) {
      CountersDefine(r.text, s.vars, k);
      CreatedIs(Parse(r.text), k);
    }
  }

  ghost predicate NothingLeft(rs: seq<Render>) {
    forall r <- rs :: !HasUnresolved(r.out)
  }

  /** Templates over clean variables, and random texts without braces. */
  ghost predicate Readable(texts: seq<string>, vars: Env, draw: nat -> string) {
    AllTemplates(texts) && AllClean(vars, texts) && forall i :: BraceFree(draw(i))
  }

  /** The first text: whether anything is left in it, and what it does for the next ones. */
  lemma FirstRender(rs: seq<Render>, s: Snap, draw: nat -> string, vars: Env)
    requires rs != [] && Fires(rs[0], s, draw) && Readable(Texts(rs), s.vars, draw) && SameCounters(vars, s.vars)
    ensures HasUnresolved(rs[0].out) <==> !(PartOf(rs[0].text, vars).needs <= s.vars.Keys)
    ensures rs[0].after.vars.Keys == s.vars.Keys + PartOf(rs[0].text, vars).creates
    ensures Readable(Texts(rs[1..]), rs[0].after.vars, draw) && SameCounters(vars, rs[0].after.vars)
  {
    var (r, ls) := (rs[0], Texts(rs));
    assert ls[0] == r.text && ls[0] in ls && ls[1..] == Texts(rs[1..]);
    assert forall t :: t in ls[1..] ==> t in ls;
    GuardByNeeds(r, s, draw);
    NeedsStay(Parse(r.text), vars, s.vars);
    RenderDefines(r, s, draw);
    CountersKeepClean(r.text, s.vars, ls[1..]);
  }

  lemma NothingLeftTail(rs: seq<Render>)
    requires rs != []
    ensures NothingLeft(rs) <==> !HasUnresolved(rs[0].out) && NothingLeft(rs[1..])
  {
    assert forall q :: q in rs <==> q == rs[0] || q in rs[1..];
  }

  lemma FlowsHead(texts: seq<string>, vars: Env, known: set<string>)
    requires texts != []
    ensures var p := PartOf(texts[0], vars);
            Flows(PartsOf(texts, vars), known) <==>
            p.needs <= known && Flows(PartsOf(texts[1..], vars), known + p.creates)
  {
    assert PartsOf(texts, vars)[0] == PartOf(texts[0], vars) && PartsOf(texts, vars)[1..] == PartsOf(texts[1..], vars);
  }

  lemma FlowStep(rs: seq<Render>, vars: Env, before: set<string>, after: set<string>)
    requires rs != [] && after == before + PartOf(rs[0].text, vars).creates
    requires HasUnresolved(rs[0].out) <==> !(PartOf(rs[0].text, vars).needs <= before)
    requires NothingLeft(rs[1..]) <==> Flows(PartsOf(Texts(rs[1..]), vars), after)
    ensures NothingLeft(rs) <==> Flows(PartsOf(Texts(rs), vars), before)
  {
    NothingLeftTail(rs);
    assert Texts(rs)[0] == rs[0].text && Texts(rs)[1..] == Texts(rs[1..]);
    FlowsHead(Texts(rs), vars, before);
  }

  /** Texts rendered one after another: nothing is left in any of them exactly if the parts flow. */
  lemma {:induction false} RendersFlow(rs: seq<Render>, s: Snap, draw: nat -> string, s': Snap, vars: Env)
    requires Rendered(rs, s, Firing(draw), s') && Readable(Texts(rs), s.vars, draw) && SameCounters(vars, s.vars)
    ensures NothingLeft(rs) <==> Flows(PartsOf(Texts(rs), vars), s.vars.Keys)
  {
    if rs != [] {
      FirstRender(rs, s, draw, vars);
      RendersFlow(rs[1..], rs[0].after, draw, s', vars);
      FlowStep(rs, vars, s.vars.Keys, rs[0].after.vars.Keys);
    } else {
      assert PartsOf(Texts(rs), vars) == [];
    }
  }

  // ---- The headers of a request ----

  /** One rendering of the headers, from the variables the URL left. */
  datatype Headers = Headers(log: seq<Visit>, out: map<string, string>, end: Snap)

  ghost predicate RendersHeaders(headers: map<string, string>, s: Snap, draw: nat -> string, h: Headers) {
    Traversal(draw)(Obj(HttpTrigger.AsTree(headers)), h.log, Obj(HttpTrigger.AsTree(h.out)), s, h.end)
  }

  predicate AnyLeft(headers: map<string, string>) {
    exists k <- headers :: HasUnresolved(headers[k])
  }

  /** The texts of a map of headers are those right below it. */
  lemma HeaderLeaf(headers: map<string, string>, p: Path)
    ensures LeafAt(Obj(HttpTrigger.AsTree(headers)), p).Some? <==>
            |p| == 1 && p[0].Field? && p[0].name in headers
    ensures LeafAt(Obj(HttpTrigger.AsTree(headers)), p).Some? ==>
            LeafAt(Obj(HttpTrigger.AsTree(headers)), p).value == headers[p[0].name]
  {
    var tree := Obj(HttpTrigger.AsTree(headers));
    if p != [] && Child(tree, p[0]).Some? {
      assert At(tree, p) == At(Child(tree, p[0]).value, p[1..]);
    }
  }

  lemma HeaderVisited(headers: map<string, string>, s: Snap, draw: nat -> string, h: Headers, k: string)
    returns (n: nat)
    requires RendersHeaders(headers, s, draw, h) && k in h.out
    ensures n < |h.log| && h.log[n].render.out == h.out[k]
  {
    var (v, out, p) := (Obj(HttpTrigger.AsTree(headers)), Obj(HttpTrigger.AsTree(h.out)), [Field(k)]);
    HeaderLeaf(h.out, p);
    assert KindAt(out, p) == KindAt(v, p);
    assert Visited(h.log, p);
    n :| 0 <= n < |h.log| && h.log[n].path == p;
  }

  lemma HeadersLeft(headers: map<string, string>, s: Snap, draw: nat -> string, h: Headers)
    requires RendersHeaders(headers, s, draw, h)
    ensures AnyLeft(h.out) <==> !NothingLeft(Renders(h.log))
  {
    if k :| k in h.out && HasUnresolved(h.out[k]) {
      var n := HeaderVisited(headers, s, draw, h, k);
      assert Renders(h.log)[n] in Renders(h.log);
    }
    if r :| r in Renders(h.log) && HasUnresolved(r.out) {
      var n :| 0 <= n < |Renders(h.log)| && Renders(h.log)[n] == r;
      HeaderLeaf(h.out, h.log[n].path);
    }
  }

  /** In which order the headers were rendered decides: something is left exactly if their parts do
      not flow in that order. */
  lemma HeadersFlow(headers: map<string, string>, s: Snap, draw: nat -> string, h: Headers)
    requires RendersHeaders(headers, s, draw, h) && Readable(Texts(Renders(h.log)), s.vars, draw)
    ensures AnyLeft(h.out) <==> !Flows(PartsOf(Texts(Renders(h.log)), s.vars), s.vars.Keys)
  {
    HeadersLeft(headers, s, draw, h);
    RendersFlow(Renders(h.log), s, draw, h.end, s.vars);
  }

  // ---- A whole request ----

  lemma NothingLeftAppend(a: seq<Render>, b: seq<Render>)
    ensures NothingLeft(a + b) <==> NothingLeft(a) && NothingLeft(b)
  {
    assert forall r :: r in a + b <==> r in a || r in b;
  }

  /** The texts of a request in the order of rendering. */
  function RequestTexts(cfg: HttpTrigger.Config, q: HttpTrigger.Request): seq<string> {
    [cfg.url] + Texts(Renders(q.headerLog)) + Texts(Renders(q.bodyLog))
  }

  function RequestRenders(q: HttpTrigger.Request): seq<Render> {
    [q.url] + Renders(q.headerLog) + Renders(q.bodyLog)
  }

  lemma JoinRendered(r: Render, hs: seq<Render>, bs: seq<Render>, s: Snap, fires: (Render, Snap) -> bool, mid: Snap,
                     end: Snap)
    requires fires(r, s) && Rendered(hs, r.after, fires, mid) && Rendered(bs, mid, fires, end)
    ensures Rendered([r] + hs + bs, s, fires, end)
  {
    assert ([r] + hs)[1..] == hs;
    RenderedAppend([r] + hs, bs, s, fires, mid, end);
  }

  lemma BodyRendered(cfg: HttpTrigger.Config, wire: HttpTrigger.Wire, draw: nat -> string, s: Snap,
                     q: HttpTrigger.Request)
    requires HttpTrigger.Rendering(cfg, wire, draw, s, q)
    ensures Rendered(Renders(q.headerLog), q.url.after, Firing(draw), q.mid)
    ensures Rendered(Renders(q.bodyLog), q.mid, Firing(draw), q.end)
  {
    if cfg.body == None { assert Renders(q.bodyLog) == []; }
  }

  lemma RequestRendered(cfg: HttpTrigger.Config, wire: HttpTrigger.Wire, draw: nat -> string, s: Snap,
                        q: HttpTrigger.Request)
    requires HttpTrigger.Rendering(cfg, wire, draw, s, q)
    ensures Rendered(RequestRenders(q), s, Firing(draw), q.end)
  {
    BodyRendered(cfg, wire, draw, s, q);
    assert Firing(draw)(q.url, s);
    JoinRendered(q.url, Renders(q.headerLog), Renders(q.bodyLog), s, Firing(draw), q.mid, q.end);
  }

  lemma RequestRendersTexts(cfg: HttpTrigger.Config, q: HttpTrigger.Request)
    requires q.url.text == cfg.url
    ensures Texts(RequestRenders(q)) == RequestTexts(cfg, q)
  {
  }

  /** The guard on URL and headers alone, whatever becomes of the body. */
  lemma HeadStopped(cfg: HttpTrigger.Config, wire: HttpTrigger.Wire, draw: nat -> string, s: Snap,
                    q: HttpTrigger.Request)
    requires HttpTrigger.Rendering(cfg, wire, draw, s, q)
    requires Readable([cfg.url] + Texts(Renders(q.headerLog)), s.vars, draw)
    ensures HasUnresolved(q.url.out) || AnyLeft(q.headers) <==>
            !Flows(PartsOf([cfg.url] + Texts(Renders(q.headerLog)), s.vars), s.vars.Keys)
  {
    var rs := [q.url] + Renders(q.headerLog);
    assert Texts(rs) == [cfg.url] + Texts(Renders(q.headerLog)) && rs[1..] == Renders(q.headerLog);
    HeadersLeft(cfg.headers, q.url.after, draw, Headers(q.headerLog, q.headers, q.mid));
    NothingLeftTail(rs);
    RendersFlow(rs, s, draw, q.mid, s.vars);
  }

  /** Nothing is left in any text of the request exactly if the texts flow. */
  lemma RequestFlows(cfg: HttpTrigger.Config, wire: HttpTrigger.Wire, draw: nat -> string, s: Snap,
                     q: HttpTrigger.Request)
    requires HttpTrigger.Rendering(cfg, wire, draw, s, q) && Readable(RequestTexts(cfg, q), s.vars, draw)
    ensures Flows(PartsOf(RequestTexts(cfg, q), s.vars), s.vars.Keys) <==>
            !HasUnresolved(q.url.out) && !AnyLeft(q.headers) && NothingLeft(Renders(q.bodyLog))
  {
    RequestRendered(cfg, wire, draw, s, q);
    RequestRendersTexts(cfg, q);
    RendersFlow(RequestRenders(q), s, draw, q.end, s.vars);
    NothingLeftAppend([q.url] + Renders(q.headerLog), Renders(q.bodyLog));
    NothingLeftAppend([q.url], Renders(q.headerLog));
    HeadersLeft(cfg.headers, q.url.after, draw, Headers(q.headerLog, q.headers, q.mid));
  }

  /** Some text of the tree holds a placeholder. */
  ghost predicate TextLeft(v: Any) {
    exists p :: LeafAt(v, p).Some? && HasUnresolved(LeafAt(v, p).value)
  }

  /** Some key of the tree does. */
  ghost predicate KeyLeft(v: Any) {
    exists p, k :: KindAt(v, p + [Field(k)]).Some? && HasUnresolved(k)
  }

  lemma LeafKinds(v: Any, p: Path)
    ensures LeafAt(v, p).Some? <==> KindAt(v, p) == Some(KText)
  {
  }

  /** The texts of a rendered tree are the results of its renderings, and its keys are as before. */
  lemma LeafRendered(v: Any, log: seq<Visit>, out: Any, p: Path) returns (n: nat)
    requires Covers(v, log, out) && LeafAt(out, p).Some?
    ensures n < |log| && log[n].path == p && LeafAt(out, p) == Some(Renders(log)[n].out)
  {
    LeafKinds(out, p);
    LeafKinds(v, p);
    assert Visited(log, p);
    n :| 0 <= n < |log| && log[n].path == p;
  }

  /** The texts of a rendered tree are the results of its renderings. */
  lemma TreeLeft(v: Any, log: seq<Visit>, out: Any)
    requires Covers(v, log, out)
    ensures TextLeft(out) <==> !NothingLeft(Renders(log))
  {
    if p :| LeafAt(out, p).Some? && HasUnresolved(LeafAt(out, p).value) {
      var n := LeafRendered(v, log, out, p);
      assert Renders(log)[n] in Renders(log);
    }
    if r :| r in Renders(log) && HasUnresolved(r.out) {
      var n :| 0 <= n < |Renders(log)| && Renders(log)[n] == r;
      assert LeafAt(out, log[n].path) == Some(r.out);
    }
  }

  /** Its keys are as before. */
  lemma KeysStay(v: Any, log: seq<Visit>, out: Any)
    requires Covers(v, log, out)
    ensures KeyLeft(out) <==> KeyLeft(v)
  {
    assert forall p, k :: KindAt(out, p + [Field(k)]) == KindAt(v, p + [Field(k)]);
  }

  /** The serializer writes the keys and texts of a tree so that its text holds a placeholder exactly
      if one of them does. */
  ghost predicate Transparent(wire: HttpTrigger.Wire, fields: map<string, Any>) {
    match wire.marshal(fields)
    case None => true
    case Some(t) => HasHole(Parse(t)) <==> TextLeft(Obj(fields)) || KeyLeft(Obj(fields))
  }

  /** A placeholder is left in URL, headers or body. */
  ghost predicate HoleLeft(q: HttpTrigger.Request) {
    || HasHole(Parse(q.url.out))
    || (exists k <- q.headers :: HasHole(Parse(q.headers[k])))
    || (q.body.Some? && HasHole(Parse(q.body.value)))
  }

  lemma HoleLeftReads(q: HttpTrigger.Request)
    ensures HoleLeft(q) <==>
            HasUnresolved(q.url.out) || AnyLeft(q.headers) || (q.body.Some? && HasUnresolved(q.body.value))
  {
    Operators.GuardReads(q.url.out);
    if q.body.Some? { Operators.GuardReads(q.body.value); }
    forall k <- q.headers ensures HasUnresolved(q.headers[k]) <==> HasHole(Parse(q.headers[k])) {
      Operators.GuardReads(q.headers[k]);
    }
  }

  lemma BodyLeft(cfg: HttpTrigger.Config, wire: HttpTrigger.Wire, draw: nat -> string, s: Snap,
                 q: HttpTrigger.Request)
    requires HttpTrigger.Rendering(cfg, wire, draw, s, q) && q.body.Some?
    requires cfg.body.Some? ==> !HttpTrigger.IsForm(q.headers, wire.printer) && Transparent(wire, q.fields)
    ensures HasUnresolved(q.body.value) <==>
            !NothingLeft(Renders(q.bodyLog)) || (cfg.body.Some? && KeyLeft(Obj(cfg.body.value)))
  {
    if cfg.body.Some? {
      Operators.GuardReads(q.body.value);
      TreeLeft(Obj(cfg.body.value), q.bodyLog, Obj(q.fields));
      KeysStay(Obj(cfg.body.value), q.bodyLog, Obj(q.fields));
    }
  }

  /** The guard on a whole request, by the configuration, the variables before the call, and the order
      in which headers and body were rendered: something is left if and only if some text needs a name
      that nothing before it defines, or a key of the body holds a placeholder. */
  lemma RequestStopped(cfg: HttpTrigger.Config, wire: HttpTrigger.Wire, draw: nat -> string, s: Snap,
                       q: HttpTrigger.Request)
    requires HttpTrigger.Rendering(cfg, wire, draw, s, q) && Readable(RequestTexts(cfg, q), s.vars, draw)
    requires q.body.Some?
    requires cfg.body.Some? ==> !HttpTrigger.IsForm(q.headers, wire.printer) && Transparent(wire, q.fields)
    ensures HoleLeft(q) <==>
            || !Flows(PartsOf(RequestTexts(cfg, q), s.vars), s.vars.Keys)
            || (cfg.body.Some? && KeyLeft(Obj(cfg.body.value)))
  {
    HoleLeftReads(q);
    RequestFlows(cfg, wire, draw, s, q);
    BodyLeft(cfg, wire, draw, s, q);
  }

  // ---- Every order of the headers happens ----

  function TextsOf(headers: map<string, string>, names: seq<string>): seq<string>
    requires forall k <- names :: k in headers
  {
    seq(|names|, n requires 0 <= n < |names| => headers[names[n]])
  }

  function Members(names: seq<string>): set<string> {
    set k | k in names
  }

  lemma RenderAny(text: string, s: Snap, draw: nat -> string) returns (r: Render)
    ensures Fires(r, s, draw) && r.text == text
  {
    var after := AfterCounters(text, s.vars).1;
    var order := TemplateOrder.Enumerate(after.Keys);
    var (out, used) := Replaced(text, s.vars, order, draw, s.used);
    r := Render(text, out, order, Snap(after, used));
  }

  lemma TextsMore(log: seq<Visit>, k: string, r: Render, texts: seq<string>)
    requires Texts(Renders(log)) == texts
    ensures Texts(Renders(log + Below(Field(k), [Visit([], r)]))) == texts + [r.text]
  {
    var more := log + Below(Field(k), [Visit([], r)]);
    assert forall n | 0 <= n < |log| :: Renders(more)[n] == Renders(log)[n];
    assert Renders(more)[|log|] == r;
    assert forall n | 0 <= n < |log| :: Texts(Renders(more))[n] == Texts(Renders(log))[n];
  }

  /** The headers of these names are rendered, in this order. */
  ghost predicate SomeDone(headers: map<string, string>, names: seq<string>, s: Snap, draw: nat -> string, h: Headers)
    requires forall k <- names :: k in headers
  {
    && HttpTrigger.HeadersDone(headers, headers.Keys - Members(names), h.log, h.out, s, draw, h.end)
    && Texts(Renders(h.log)) == TextsOf(headers, names)
  }

  lemma RenderNext(headers: map<string, string>, init: seq<string>, k: string, s: Snap, draw: nat -> string,
                   before: Headers) returns (h: Headers)
    requires (forall l <- init :: l in headers) && k in headers && k !in init
    requires SomeDone(headers, init, s, draw, before)
    ensures SomeDone(headers, init + [k], s, draw, h)
  {
    var r := RenderAny(headers[k], before.end, draw);
    HttpTrigger.HeaderDone(headers, headers.Keys - Members(init), before.log, before.out, s, draw, before.end, k, r);
    h := Headers(before.log + Below(Field(k), [Visit([], r)]), before.out[k := r.out], r.after);
    OneNameMore(headers, init, k);
    TextsMore(before.log, k, r, TextsOf(headers, init));
  }

  lemma OneNameMore(headers: map<string, string>, init: seq<string>, k: string)
    requires (forall l <- init :: l in headers) && k in headers
    ensures headers.Keys - Members(init) - {k} == headers.Keys - Members(init + [k])
    ensures TextsOf(headers, init + [k]) == TextsOf(headers, init) + [headers[k]]
  {
  }

  lemma {:induction false} RenderSome(headers: map<string, string>, names: seq<string>, s: Snap, draw: nat -> string)
    returns (h: Headers)
    requires (forall k <- names :: k in headers) && TemplateOrder.Distinct(names)
    ensures SomeDone(headers, names, s, draw, h)
  {
    if names == [] {
      h := Headers([], map[], s);
      assert headers.Keys - Members([]) == headers.Keys;
      TraversalNothing(Obj(HttpTrigger.AsTree(Except(headers, headers.Keys))), Obj(HttpTrigger.AsTree(map[])), s, draw);
    } else {
      var init, k := names[..|names| - 1], names[|names| - 1];
      assert names == init + [k];
      TemplateOrder.DistinctLast(names, init, k);
      var before := RenderSome(headers, init, s, draw);
      h := RenderNext(headers, init, k, s, draw, before);
    }
  }

  /** For every order of the header names there is a rendering in that order. */
  lemma RenderInOrder(headers: map<string, string>, names: seq<string>, s: Snap, draw: nat -> string)
    returns (h: Headers)
    requires IsOrder(names, headers.Keys)
    ensures RendersHeaders(headers, s, draw, h) && Texts(Renders(h.log)) == TextsOf(headers, names)
  {
    h := RenderSome(headers, names, s, draw);
    assert headers.Keys - Members(names) == {};
    assert Except(headers, {}) == headers;
  }

  /** The part of a header, by its name. */
  ghost function PartNamed(headers: map<string, string>, vars: Env): string -> Part {
    k => if k in headers then PartOf(headers[k], vars) else Part({}, {})
  }

  lemma PartsNamed(headers: map<string, string>, names: seq<string>, vars: Env)
    requires forall k <- names :: k in headers
    ensures PartsOf(TextsOf(headers, names), vars) == Mapped(PartNamed(headers, vars), names)
  {
  }

  lemma SortedIsOrder(names: seq<string>, sorted: seq<string>, keys: set<string>)
    requires IsOrder(names, keys) && multiset(sorted) == multiset(names)
    ensures IsOrder(sorted, keys)
  {
    forall k ensures k in sorted <==> k in keys {
      assert k in sorted <==> k in multiset(sorted);
      assert k in names <==> k in multiset(names);
    }
    forall i, j | 0 <= i < j < |sorted| ensures sorted[i] != sorted[j] {
      if sorted[i] == sorted[j] {
        TwiceCounts(sorted, i, j);
        OnceCounts(names, sorted[i]);
      }
    }
  }

  lemma TwiceCounts(a: seq<string>, i: nat, j: nat)
    requires i < j < |a| && a[i] == a[j]
    ensures multiset(a)[a[i]] >= 2
  {
    MultisetRemove(a, j);
    assert (a[..j] + a[j + 1..])[i] == a[i];
    assert a[i] in multiset(a[..j] + a[j + 1..]);
    assert a[j] in multiset(a);
  }

  lemma OnceCounts(a: seq<string>, k: string)
    requires forall i, j | 0 <= i < j < |a| :: a[i] != a[j]
    ensures multiset(a)[k] <= 1
  {
    if n: nat :| n < |a| && a[n] == k {
      MultisetRemove(a, n);
      var rest := a[..n] + a[n + 1..];
      assert k !in rest by {
        assert forall m | 0 <= m < |rest| :: rest[m] == a[if m < n then m else m + 1];
      }
      assert k !in multiset(rest);
      assert k in multiset(a);
    } else {
      assert k !in multiset(a);
    }
  }

  // ---- Exactly when the order of the headers decides ----

  /** All renderings of the headers agree on whether the guard finds something left. */
  ghost predicate HeaderOrderNeverShows(headers: map<string, string>, s: Snap, draw: nat -> string) {
    forall g, h | RendersHeaders(headers, s, draw, g) && RendersHeaders(headers, s, draw, h) ::
      AnyLeft(g.out) <==> AnyLeft(h.out)
  }

  /** The headers as parts, in some order that does not matter. */
  ghost function HeaderParts(headers: map<string, string>, vars: Env): seq<Part> {
    PartsOf(TextsOf(headers, TemplateOrder.Enumerate(headers.Keys)), vars)
  }

  /** The headers are templates over clean variables. */
  ghost predicate ReadableHeaders(headers: map<string, string>, vars: Env, draw: nat -> string) {
    && (forall k <- headers :: IsTemplate(headers[k]) && Clean(vars, Parse(headers[k])))
    && forall i :: BraceFree(draw(i))
  }

  lemma LeafTexts(headers: map<string, string>, s: Snap, draw: nat -> string, h: Headers)
    requires RendersHeaders(headers, s, draw, h)
    ensures forall t <- Texts(Renders(h.log)) :: exists k <- headers :: headers[k] == t
  {
    forall t | t in Texts(Renders(h.log)) ensures exists k <- headers :: headers[k] == t {
      var n :| 0 <= n < |h.log| && Texts(Renders(h.log))[n] == t;
      HeaderLeaf(headers, h.log[n].path);
    }
  }

  function NameAt(p: Path): string {
    if p != [] && p[0].Field? then p[0].name else ""
  }

  /** The names in the order in which they were rendered. */
  function LogNames(log: seq<Visit>): seq<string> {
    seq(|log|, n requires 0 <= n < |log| => NameAt(log[n].path))
  }

  lemma LogIsOrder(headers: map<string, string>, s: Snap, draw: nat -> string, h: Headers)
    requires RendersHeaders(headers, s, draw, h)
    ensures IsOrder(LogNames(h.log), headers.Keys)
    ensures Texts(Renders(h.log)) == TextsOf(headers, LogNames(h.log))
  {
    var (v, names) := (Obj(HttpTrigger.AsTree(headers)), LogNames(h.log));
    forall n | 0 <= n < |h.log| ensures names[n] in headers && h.log[n].path == [Field(names[n])]
                                        && h.log[n].render.text == headers[names[n]]
    {
      HeaderLeaf(headers, h.log[n].path);
    }
    forall k ensures k in names <==> k in headers.Keys {
      if k in headers {
        HeaderLeaf(headers, [Field(k)]);
        assert Visited(h.log, [Field(k)]);
        var n :| 0 <= n < |h.log| && h.log[n].path == [Field(k)];
        assert names[n] == k;
      }
    }
  }

  /** What was rendered are the header parts, in some order. */
  lemma RenderedParts(headers: map<string, string>, s: Snap, draw: nat -> string, h: Headers)
    requires RendersHeaders(headers, s, draw, h)
    ensures multiset(PartsOf(Texts(Renders(h.log)), s.vars)) == multiset(HeaderParts(headers, s.vars))
  {
    var (names, some, f) := (LogNames(h.log), TemplateOrder.Enumerate(headers.Keys), PartNamed(headers, s.vars));
    LogIsOrder(headers, s, draw, h);
    SameMembers(names, some, headers.Keys);
    MappedSame(f, names, some);
    PartsNamed(headers, names, s.vars);
    PartsNamed(headers, some, s.vars);
  }

  lemma SameMembers(a: seq<string>, b: seq<string>, keys: set<string>)
    requires IsOrder(a, keys) && IsOrder(b, keys)
    ensures multiset(a) == multiset(b)
  {
    forall k ensures multiset(a)[k] == multiset(b)[k] {
      OnceCounts(a, k);
      OnceCounts(b, k);
      assert k in a <==> k in multiset(a);
      assert k in b <==> k in multiset(b);
    }
  }

  lemma RenderingFlows(headers: map<string, string>, s: Snap, draw: nat -> string, h: Headers)
    requires RendersHeaders(headers, s, draw, h) && ReadableHeaders(headers, s.vars, draw)
    ensures AnyLeft(h.out) <==> !Flows(PartsOf(Texts(Renders(h.log)), s.vars), s.vars.Keys)
  {
    LeafTexts(headers, s, draw, h);
    HeadersFlow(headers, s, draw, h);
  }

  /** Every order of the parts is rendered by some order of the names. */
  lemma RenderParts(headers: map<string, string>, s: Snap, draw: nat -> string, order: seq<Part>) returns (h: Headers)
    requires multiset(order) == multiset(HeaderParts(headers, s.vars))
    ensures RendersHeaders(headers, s, draw, h) && PartsOf(Texts(Renders(h.log)), s.vars) == order
  {
    var (some, f) := (TemplateOrder.Enumerate(headers.Keys), PartNamed(headers, s.vars));
    PartsNamed(headers, some, s.vars);
    var sorted := MappedInOrder(f, some, order);
    SortedIsOrder(some, sorted, headers.Keys);
    h := RenderInOrder(headers, sorted, s, draw);
    PartsNamed(headers, sorted, s.vars);
  }

  /** Exactly: the order of the headers never decides whether the guard stops the request if and only
      if every name a header needs is defined before the headers are rendered, or there is no order
      at all in which all are found. s is the state after the URL. */
  lemma HeaderOrderExactly(headers: map<string, string>, s: Snap, draw: nat -> string)
    requires ReadableHeaders(headers, s.vars, draw)
    ensures HeaderOrderNeverShows(headers, s, draw) <==>
            AllReady(HeaderParts(headers, s.vars), s.vars.Keys) || !Settles(HeaderParts(headers, s.vars), s.vars.Keys)
  {
    var (parts, known) := (HeaderParts(headers, s.vars), s.vars.Keys);
    OrderNeverMattersExactly(parts, known);
    if OrderNeverMatters(parts, known) {
      forall g, h | RendersHeaders(headers, s, draw, g) && RendersHeaders(headers, s, draw, h)
        ensures AnyLeft(g.out) <==> AnyLeft(h.out)
      {
        RenderedParts(headers, s, draw, g);
        RenderedParts(headers, s, draw, h);
        RenderingFlows(headers, s, draw, g);
        RenderingFlows(headers, s, draw, h);
      }
    } else {
      var a, b :| multiset(a) == multiset(parts) && multiset(b) == multiset(parts)
                  && !(Flows(a, known) <==> Flows(b, known));
      var g := RenderParts(headers, s, draw, a);
      var h := RenderParts(headers, s, draw, b);
      RenderingFlows(headers, s, draw, g);
      RenderingFlows(headers, s, draw, h);
    }
  }

  function NamesOf(y: string): set<string> {
    (if OpName("++", y).Some? then {OpName("++", y).value} else {})
    + (if OpName("--", y).Some? then {OpName("--", y).value} else {})
  }

  lemma CreatedByOne(y: string)
    ensures Created([Hole(y)]) == NamesOf(y)
  {
    var segs := [Hole(y)];
    assert segs[0] in segs && forall g :: g in segs ==> g == Hole(y);
  }

  lemma NeededByOne(y: string, vars: Env)
    ensures Needed([Hole(y)], vars) == (if Unhandled(y, vars) then {y} else {}) - NamesOf(y)
  {
    var segs := [Hole(y)];
    CreatedByOne(y);
    assert segs[0] in segs && forall g :: g in segs ==> g == Hole(y);
  }

  lemma OneHolePart(y: string, vars: Env)
    requires WellFormedSegment(Hole(y))
    ensures IsTemplate(Show(Hole(y))) && Parse(Show(Hole(y))) == [Hole(y)]
    ensures PartOf(Show(Hole(y)), vars) == Part((if Unhandled(y, vars) then {y} else {}) - NamesOf(y), NamesOf(y))
  {
    TemplateOrder.MentionReads(y);
    CreatedByOne(y);
    NeededByOne(y, vars);
  }

  lemma UpIsNotDown(y: string)
    requires y != "" && y[0] == '+'
    ensures OpName("--", y) == None
  {
    assert "--"[0] == '-';
  }

  lemma CountsUp(x: string, y: string)
    requires BraceFree(x) && TemplateOrder.Nameable(x) && y == TemplateOrder.OpOn("++", x)
    ensures WellFormedSegment(Hole(y)) && OpName("++", y) == Some(x) && NamesOf(y) == {x}
  {
    TemplateOrder.NamedBy("++", x);
    UpIsNotDown(y);
  }

  /** The header that counts x, and the one that uses it; y is the counter operation on x. */
  ghost predicate Counting(headers: map<string, string>, a: string, b: string, x: string, y: string) {
    && a != b && WellFormedSegment(Hole(x)) && TemplateOrder.PlainHole(x) && TemplateOrder.Nameable(x)
    && y == TemplateOrder.OpOn("++", x)
    && headers == map[a := Show(Hole(y)), b := Show(Hole(x))]
  }

  lemma CountingParts(headers: map<string, string>, a: string, b: string, x: string, y: string, vars: Env)
    requires Counting(headers, a, b, x, y) && x !in vars
    ensures PartOf(headers[a], vars) == Part({}, {x}) && PartOf(headers[b], vars) == Part({x}, {})
    ensures IsTemplate(headers[a]) && Parse(headers[a]) == [Hole(y)]
    ensures IsTemplate(headers[b]) && Parse(headers[b]) == [Hole(x)]
  {
    CountsUp(x, y);
    OneHolePart(y, vars);
    OneHolePart(x, vars);
    assert Counter(vars, x) == Some(0) && Handles(INCREMENT, y, vars);
    assert NamesOf(x) == {} && Unhandled(x, vars);
  }

  lemma CountingReadable(headers: map<string, string>, a: string, b: string, x: string, y: string, vars: Env,
                         draw: nat -> string)
    requires Counting(headers, a, b, x, y) && x !in vars && y !in vars
    requires BraceFreeKeys(vars) && forall i :: BraceFree(draw(i))
    ensures ReadableHeaders(headers, vars, draw)
  {
    CountingParts(headers, a, b, x, y, vars);
    forall k <- headers ensures IsTemplate(headers[k]) && Clean(vars, Parse(headers[k])) {
      assert k == a || k == b;
    }
  }

  /** One header counts x and another uses it, x being undefined: the request passes the guard when
      the first is rendered first, and is stopped when it is rendered last. */
  lemma CountingHeadersShowOrder(headers: map<string, string>, a: string, b: string, x: string, y: string, s: Snap,
                                 draw: nat -> string)
    requires Counting(headers, a, b, x, y) && x !in s.vars && y !in s.vars
    requires BraceFreeKeys(s.vars) && forall i :: BraceFree(draw(i))
    ensures !HeaderOrderNeverShows(headers, s, draw)
  {
    var parts := HeaderParts(headers, s.vars);
    CountingReadable(headers, a, b, x, y, s.vars, draw);
    CountingParts(headers, a, b, x, y, s.vars);
    assert headers.Keys == {a, b};
    TwoHeaders(headers, a, b, s.vars, Part({}, {x}), Part({x}, {}));
    TwoFlow(x, s.vars.Keys);
    FlowingSettles(parts, [Part({}, {x}), Part({x}, {})], s.vars.Keys);
    NotReady(parts, x, s.vars.Keys);
    HeaderOrderExactly(headers, s, draw);
  }

  lemma NotReady(parts: seq<Part>, x: string, known: set<string>)
    requires multiset(parts) == multiset([Part({}, {x}), Part({x}, {})]) && x !in known
    ensures !AllReady(parts, known)
  {
    var p := Part({x}, {});
    assert p in multiset([Part({}, {x}), p]);
    assert p in parts && x in p.needs;
  }

  lemma TwoFlow(x: string, known: set<string>)
    ensures Flows([Part({}, {x}), Part({x}, {})], known)
  {
    var parts := [Part({}, {x}), Part({x}, {})];
    assert parts[1..] == [Part({x}, {})] && parts[1..][1..] == [];
  }

  lemma TwoHeaders(headers: map<string, string>, a: string, b: string, vars: Env, p: Part, q: Part)
    requires headers.Keys == {a, b} && a != b && PartOf(headers[a], vars) == p && PartOf(headers[b], vars) == q
    ensures multiset([p, q]) == multiset(HeaderParts(headers, vars))
  {
    var (names, some, f) := ([a, b], TemplateOrder.Enumerate(headers.Keys), PartNamed(headers, vars));
    SameMembers(names, some, headers.Keys);
    MappedSame(f, names, some);
    PartsNamed(headers, some, vars);
    assert Mapped(f, names) == [p, q];
  }
}
