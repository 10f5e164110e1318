/** HTTPTrigger.Execute: rendering over the shared variables, the guard before the request, and
    the extraction after it. The network is the reply in Wire. */
module HttpTrigger {
  import opened Text
  import opened Rewriting
  import opened Template
  import opened Counters
  import opened BodyTree
  import FlatIndex
  import Operators
  import TemplateLaws

  datatype Check = Check(field: string, value: string)

  datatype Config = Config(
    url: string,
    headers: map<string, string>,
    body: Option<map<string, Any>>,
    extract: map<string, string>,
    expectedStatus: int,
    checks: seq<Check>)

  datatype Payload = Unreadable | Blank | NotJson | Parsed(fields: map<string, FlatIndex.Json>)

  datatype Reply = NoReply | Reply(status: int, payload: Payload)

  /** The libraries and the network: serializing bodies, building and sending the request,
      creating and evaluating an assertion on the flattened reply. */
  datatype Wire = Wire(
    printer: FlatIndex.Printer,
    marshal: map<string, Any> -> Option<string>,
    encodeForm: map<string, Any> -> string,
    buildable: string -> bool,
    send: (string, map<string, string>, string) -> Reply,
    holds: (string, string, map<string, string>) -> bool)

  datatype Outcome = Ok(extracted: Env) | Err(message: string)

  function AsTree(h: map<string, string>): (r: map<string, Any>)
    ensures r.Keys == h.Keys
  {
    map k | k in h :: Str(h[k])
  }

  predicate Contains(s: string, sub: string) {
    exists i | 0 <= i <= |s| :: HasPrefix(s[i..], sub)
  }

  predicate IsForm(headers: map<string, string>, p: FlatIndex.Printer) {
    exists k <- headers ::
      p.Lower(k) == "content-type" && Contains(p.Lower(headers[k]), "application/x-www-form-urlencoded")
  }

  /** A header named content-type, in any case, whose value contains the type of forms, in any case. */
  lemma IsFormExactly(headers: map<string, string>, p: FlatIndex.Printer)
    ensures IsForm(headers, p) <==>
            exists k <- headers ::
              p.Lower(k) == "content-type" && Operators.Within("application/x-www-form-urlencoded", p.Lower(headers[k]))
  {
    forall k <- headers { ContainsExactly(p.Lower(headers[k]), "application/x-www-form-urlencoded"); }
  }

  lemma ContainsExactly(s: string, sub: string)
    ensures Contains(s, sub) <==> Operators.Within(sub, s)
  {
    if i :| 0 <= i <= |s| && HasPrefix(s[i..], sub) {
      assert s[i..][..|sub|] == sub;
      assert s == s[..i] + sub + s[i + |sub|..];
    }
    if a, b :| s == a + sub + b {
      assert s[|a|..] == sub + b;
      assert HasPrefix(s[|a|..], sub);
    }
  }

  function CheckTexts(checks: seq<Check>): seq<string> {
    if checks == [] then [] else [checks[0].field, checks[0].value] + CheckTexts(checks[1..])
  }

  ghost function HeaderTexts(cfg: Config): multiset<string> {
    Leaves(Obj(AsTree(cfg.headers)))
  }

  ghost function BodyTexts(cfg: Config): multiset<string> {
    if cfg.body == None then multiset{} else Leaves(Obj(cfg.body.value))
  }

  /** Everything one call renders, in order. */
  datatype Parts = Parts(headers: seq<string>, body: seq<string>, checks: seq<string>)

  /** What one call does to the variables, whatever it returns: URL, headers and body are always
      rendered once each; assertions only after a reply, and only up to the first that fails. */
  ghost predicate Executed(cfg: Config, runID: string, vars: Env, parts: Parts, vars': Env, r: Outcome, sent: bool) {
    && multiset(parts.headers) == HeaderTexts(cfg)
    && multiset(parts.body) == BodyTexts(cfg)
    && parts.checks <= CheckTexts(cfg.checks)
    && (!sent ==> parts.checks == [] && r.Err?)
    && vars' == Effect([cfg.url] + parts.headers + parts.body + parts.checks, vars["run_id" := runID])
    && (r.Ok? ==> r.extracted.Keys <= cfg.extract.Keys)
    && (r.Err? ==> r.message != "")
  }

  // ---- The code ----

  lemma AsTreeInsert(h: map<string, string>, k: string, v: string)
    ensures AsTree(h[k := v]) == AsTree(h)[k := Str(v)]
  {
  }

  lemma HeaderStep(part: map<string, Any>, log: seq<Visit>, res: map<string, string>, s: Snap, draw: nat -> string,
                   s1: Snap, k: string, r: Render)
    requires k !in part && k !in AsTree(res) && Fires(r, s1, draw)
    requires Traversal(draw)(Obj(part), log, Obj(AsTree(res)), s, s1)
    ensures Traversal(draw)(Obj(part[k := Str(r.text)]), log + Below(Field(k), [Visit([], r)]),
                            Obj(AsTree(res[k := r.out])), s, r.after)
  {
    TraversalText(r.text, r, s1, draw);
    FieldExtends(part, k, Str(r.text));
    FieldExtends(AsTree(res), k, Str(r.out));
    AsTreeInsert(res, k, r.out);
    TraversalInsert(Obj(part), log, Obj(AsTree(res)), s, draw, s1, Field(k), Str(r.text), [Visit([], r)],
                    Str(r.out), r.after, Obj(part[k := Str(r.text)]), Obj(AsTree(res)[k := Str(r.out)]));
  }

  method RenderText(text: string, vars: Vars, rng: Random) returns (out: string, ghost r: Render)
    modifies vars, rng
    ensures Fires(r, Snap(old(vars.entries), old(rng.used)), rng.stream)
    ensures r.text == text && r.out == out && r.after == Snap(vars.entries, rng.used)
  {
    ghost var order;
    out, order := ReplaceString(text, vars, rng);
    r := Render(text, out, order, Snap(vars.entries, rng.used));
  }

  /** All headers but those of left are rendered. */
  ghost predicate HeadersDone(h: map<string, string>, left: set<string>, log: seq<Visit>, res: map<string, string>,
                              s: Snap, draw: nat -> string, s1: Snap) {
    && res.Keys == h.Keys - left
    && Traversal(draw)(Obj(AsTree(Except(h, left))), log, Obj(AsTree(res)), s, s1)
  }

  lemma HeaderDone(h: map<string, string>, left: set<string>, log: seq<Visit>, res: map<string, string>,
                   s: Snap, draw: nat -> string, s1: Snap, k: string, r: Render)
    requires HeadersDone(h, left, log, res, s, draw, s1) && k in h && k in left && Fires(r, s1, draw) && r.text == h[k]
    ensures HeadersDone(h, left - {k}, log + Below(Field(k), [Visit([], r)]), res[k := r.out], s, draw, r.after)
  {
    ExceptHeader(h, left, k);
    HeaderStep(AsTree(Except(h, left)), log, res, s, draw, s1, k, r);
    assert res[k := r.out].Keys == h.Keys - (left - {k});
  }

  lemma ExceptHeader(h: map<string, string>, left: set<string>, k: string)
    requires k in h && k in left
    ensures AsTree(Except(h, left - {k})) == AsTree(Except(h, left))[k := Str(h[k])]
    ensures k !in AsTree(Except(h, left))
  {
  }

  method ReplaceHeaders(headers: map<string, string>, vars: Vars, rng: Random)
    returns (res: map<string, string>, ghost log: seq<Visit>)
    modifies vars, rng
    ensures Traversal(rng.stream)(Obj(AsTree(headers)), log, Obj(AsTree(res)),
                                  Snap(old(vars.entries), old(rng.used)), Snap(vars.entries, rng.used))
    ensures res.Keys == headers.Keys
  {
    res := map[];
    log := [];
    var left := headers.Keys;
    ghost var s := Snap(vars.entries, rng.used);
    TraversalNothing(Obj(AsTree(Except(headers, left))), Obj(AsTree(res)), s, rng.stream);
    while left != {}
      invariant left <= headers.Keys
      invariant HeadersDone(headers, left, log, res, s, rng.stream, Snap(vars.entries, rng.used))
    {
      var k :| k in left;
      ghost var s1 := Snap(vars.entries, rng.used);
      var text, r := RenderText(headers[k], vars, rng);
      HeaderDone(headers, left, log, res, s, rng.stream, s1, k, r);
      left := left - {k};
      log := log + Below(Field(k), [Visit([], r)]);
      res := res[k := text];
    }
    assert Except(headers, {}) == headers;
  }

  // ---- Rendering the request ----

  /** A rendered request: the URL, the headers and the body as they came out, the visits that made
      them, and the state after each part. body is None when it could not be serialized. */
  datatype Request = Request(url: Render, headers: map<string, string>, headerLog: seq<Visit>, mid: Snap,
                             fields: map<string, Any>, bodyLog: seq<Visit>, end: Snap, body: Option<string>)

  function BodyText(headers: map<string, string>, fields: map<string, Any>, wire: Wire): Option<string> {
    if IsForm(headers, wire.printer) then Some(wire.encodeForm(fields)) else wire.marshal(fields)
  }

  ghost predicate Rendering(cfg: Config, wire: Wire, draw: nat -> string, s: Snap, q: Request) {
    && q.url.text == cfg.url && Fires(q.url, s, draw)
    && Traversal(draw)(Obj(AsTree(cfg.headers)), q.headerLog, Obj(AsTree(q.headers)), q.url.after, q.mid)
    && match cfg.body
       case None => q.bodyLog == [] && q.end == q.mid && q.body == Some("")
       case Some(tree) => Traversal(draw)(Obj(tree), q.bodyLog, Obj(q.fields), q.mid, q.end)
                          && q.body == BodyText(q.headers, q.fields, wire)
  }

  /** The first part of Execute; the ghost result says how everything came out. */
  method RenderRequest(cfg: Config, vars: Vars, rng: Random, wire: Wire)
    returns (url: string, headers: map<string, string>, body: Option<string>, ghost q: Request)
    modifies vars, rng
    ensures Rendering(cfg, wire, rng.stream, Snap(old(vars.entries), old(rng.used)), q)
    ensures q.end == Snap(vars.entries, rng.used) && ListsInOrder(q.bodyLog)
    ensures url == q.url.out && headers == q.headers && body == q.body
  {
    ghost var u;
    url, u := RenderText(cfg.url, vars, rng);
    ghost var hlog;
    headers, hlog := ReplaceHeaders(cfg.headers, vars, rng);
    ghost var mid := Snap(vars.entries, rng.used);
    if cfg.body == None {
      body := Some("");
      q := Request(u, headers, hlog, mid, map[], [], mid, body);
    } else {
      var fields, blog := ReplaceMap(cfg.body.value, vars, rng);
      body := if IsForm(headers, wire.printer) then Some(wire.encodeForm(fields)) else wire.marshal(fields);
      q := Request(u, headers, hlog, mid, fields, blog, Snap(vars.entries, rng.used), body);
    }
  }

  // ---- After the reply ----

  predicate Held(wire: Wire, rs: seq<Render>, flat: map<string, string>, n: nat) {
    |rs| == 2 * n && forall i | 0 <= i < n :: wire.holds(rs[2 * i].out, rs[2 * i + 1].out, flat)
  }

  lemma HeldNext(wire: Wire, rs: seq<Render>, a: Render, b: Render, flat: map<string, string>, i: nat, n: nat)
    requires Held(wire, rs, flat, i) && i < n
    ensures wire.holds(a.out, b.out, flat) <==> Held(wire, rs + [a, b], flat, i + 1)
    ensures !wire.holds(a.out, b.out, flat) ==> !Held(wire, rs + [a, b], flat, n)
  {
    var more := rs + [a, b];
    assert more[2 * i] == a && more[2 * i + 1] == b;
    assert forall j | 0 <= j < i :: more[2 * j] == rs[2 * j] && more[2 * j + 1] == rs[2 * j + 1];
  }

  lemma CheckTextsAt(checks: seq<Check>, i: nat, rs: seq<Render>, more: seq<Render>)
    requires i < |checks| && CheckTexts(checks) == Texts(rs) + CheckTexts(checks[i..])
    requires |more| == 2 && more[0].text == checks[i].field && more[1].text == checks[i].value
    ensures CheckTexts(checks) == Texts(rs + more) + CheckTexts(checks[i + 1..])
  {
    TextsAppend(rs, more);
    assert Texts(more) == [checks[i].field, checks[i].value];
    CheckTextsNext(checks, i);
    Associative(Texts(rs), Texts(more), CheckTexts(checks[i + 1..]));
  }

  lemma CheckTextsNext(checks: seq<Check>, i: nat)
    requires i < |checks|
    ensures CheckTexts(checks[i..]) == [checks[i].field, checks[i].value] + CheckTexts(checks[i + 1..])
  {
    assert checks[i..][1..] == checks[i + 1..];
  }

  lemma TextsAppend(a: seq<Render>, b: seq<Render>)
    ensures Texts(a + b) == Texts(a) + Texts(b)
  {
  }

  lemma Associative(a: seq<string>, b: seq<string>, c: seq<string>)
    ensures a + (b + c) == (a + b) + c
  {
  }

  lemma RenderedTwo(rs: seq<Render>, a: Render, b: Render, s: Snap, fires: (Render, Snap) -> bool, s1: Snap)
    requires Rendered(rs, s, fires, s1) && fires(a, s1) && fires(b, a.after)
    ensures Rendered(rs + [a, b], s, fires, b.after)
  {
    assert [a, b][1..] == [b] && [b][1..] == [];
    assert Rendered([b], a.after, fires, b.after);
    RenderedAppend(rs, [a, b], s, fires, s1, b.after);
  }

  /** The field and then the value of each assertion, in order. */
  ghost predicate Asked(rs: seq<Render>, checks: seq<Check>) {
    && |rs| % 2 == 0 && |rs| <= 2 * |checks|
    && forall i | 0 <= i && 2 * i + 1 < |rs| ::
         rs[2 * i].text == checks[i].field && rs[2 * i + 1].text == checks[i].value
  }

  lemma AskedNext(rs: seq<Render>, checks: seq<Check>, a: Render, b: Render, i: nat)
    requires i < |checks| && |rs| == 2 * i && Asked(rs, checks)
    requires a.text == checks[i].field && b.text == checks[i].value
    ensures Asked(rs + [a, b], checks)
  {
    var more := rs + [a, b];
    forall j | 0 <= j && 2 * j + 1 < |more|
      ensures more[2 * j].text == checks[j].field && more[2 * j + 1].text == checks[j].value
    {
      if j < i { assert more[2 * j] == rs[2 * j] && more[2 * j + 1] == rs[2 * j + 1]; }
    }
  }

  /** The response assertions in order, up to the first that fails. */
  method RunChecks(checks: seq<Check>, flat: map<string, string>, wire: Wire, vars: Vars, rng: Random)
    returns (passed: bool, ghost rs: seq<Render>)
    modifies vars, rng
    ensures Rendered(rs, Snap(old(vars.entries), old(rng.used)), Firing(rng.stream), Snap(vars.entries, rng.used))
    ensures Texts(rs) <= CheckTexts(checks) && Asked(rs, checks)
    ensures passed <==> Held(wire, rs, flat, |checks|)
    ensures passed ==> |rs| == 2 * |checks|
    ensures forall i | 0 <= i && 2 * i + 1 < |rs| && (passed || 2 * i + 2 < |rs|) ::
              wire.holds(rs[2 * i].out, rs[2 * i + 1].out, flat)
    ensures !passed ==> |rs| > 1 && !wire.holds(rs[|rs| - 2].out, rs[|rs| - 1].out, flat)
  {
    rs := [];
    ghost var s, fires := Snap(vars.entries, rng.used), Firing(rng.stream);
    for i := 0 to |checks|
      invariant CheckTexts(checks) == Texts(rs) + CheckTexts(checks[i..])
      invariant Rendered(rs, s, fires, Snap(vars.entries, rng.used))
      invariant Held(wire, rs, flat, i) && Asked(rs, checks)
    {
      ghost var s1 := Snap(vars.entries, rng.used);
      var field, a := RenderText(checks[i].field, vars, rng);
      var value, b := RenderText(checks[i].value, vars, rng);
      RenderedTwo(rs, a, b, s, fires, s1);
      CheckTextsAt(checks, i, rs, [a, b]);
      HeldNext(wire, rs, a, b, flat, i, |checks|);
      AskedNext(rs, checks, a, b, i);
      rs := rs + [a, b];
      if !wire.holds(field, value, flat) { return false, rs; }
    }
    assert Texts(rs) + CheckTexts([]) == Texts(rs);
    passed := true;
  }

  method Extract(extract: map<string, string>, flat: map<string, string>, p: FlatIndex.Printer) returns (extracted: Env)
    ensures extracted.Keys <= extract.Keys
    ensures forall v <- extract :: FlatIndex.Get(extracted, v) == FlatIndex.Get(flat, p.Lower(extract[v]))
  {
    extracted := map[];
    var left := extract.Keys;
    while left != {}
      invariant left <= extract.Keys && extracted.Keys <= extract.Keys - left
      invariant forall v | v in extract && v !in left ::
                  FlatIndex.Get(extracted, v) == FlatIndex.Get(flat, p.Lower(extract[v]))
    {
      var v :| v in left;
      left := left - {v};
      var key := p.Lower(extract[v]);
      if key in flat { extracted := extracted[v := flat[key]]; }
    }
  }

  /** What the caller gets for a reply: success exactly when it came, its status is the wanted one, its
      body can be read if it is needed, and all the assertions, rendered as rs, hold of its fields;
      then each extracted variable is the leaf its path leads to. */
  ghost predicate Answers(cfg: Config, reply: Reply, wire: Wire, rs: seq<Render>, flat: map<string, string>,
                          r: Outcome) {
    && Texts(rs) <= CheckTexts(cfg.checks)
    && (r.Ok? <==>
          && reply.Reply?
          && (if cfg.expectedStatus != 0 then reply.status == cfg.expectedStatus else reply.status < 400)
          && (cfg.extract != map[] || cfg.checks != [] ==> reply.payload.Parsed?)
          && Held(wire, rs, flat, |cfg.checks|))
    && (r.Ok? ==> r.extracted.Keys <= cfg.extract.Keys)
    && (r.Ok? ==> forall v <- cfg.extract ::
          FlatIndex.Get(r.extracted, v) == FlatIndex.Get(flat, wire.printer.Lower(cfg.extract[v])))
    && (r.Err? ==> r.message != "")
  }

  /** The fields as the index of a well-formed reply gives them. */
  ghost predicate Indexed(reply: Reply, wire: Wire, flat: map<string, string>) {
    && reply.Reply? && reply.payload.Parsed?
    && FlatIndex.WellFormedJson(wire.printer, FlatIndex.Object(reply.payload.fields)) ==>
      forall q :: FlatIndex.Get(flat, q) == FlatIndex.Navigate(wire.printer, reply.payload.fields, q)
  }

  /** The part of Execute after the request went out. */
  method ReadReply(cfg: Config, reply: Reply, wire: Wire, vars: Vars, rng: Random)
    returns (r: Outcome, ghost rs: seq<Render>, ghost flat: map<string, string>)
    modifies vars, rng
    ensures Rendered(rs, Snap(old(vars.entries), old(rng.used)), Firing(rng.stream), Snap(vars.entries, rng.used))
    ensures Answers(cfg, reply, wire, rs, flat, r)
    ensures r.Ok? <==>
              && reply.Reply?
              && (if cfg.expectedStatus != 0 then reply.status == cfg.expectedStatus else reply.status < 400)
              && (cfg.extract != map[] || cfg.checks != [] ==> reply.payload.Parsed?)
              && Held(wire, rs, flat, |cfg.checks|)
    ensures Asked(rs, cfg.checks)
    ensures r.Ok? && (cfg.extract != map[] || cfg.checks != []) ==> Indexed(reply, wire, flat)
  {
    rs, flat := [], map[];
    if reply == NoReply { return Err("trigger failed: HTTP request failed"), rs, flat; }
    if cfg.expectedStatus != 0 {
      if reply.status != cfg.expectedStatus { return Err("trigger failed: unexpected status"), rs, flat; }
    } else if reply.status >= 400 {
      return Err("trigger failed: returned status"), rs, flat;
    }
    if cfg.extract == map[] && cfg.checks == [] { return Ok(map[]), rs, flat; }
    match reply.payload
    case Unreadable => return Err("trigger failed: failed to read trigger response body"), rs, flat;
    case Blank => return Err("trigger failed: trigger response body is empty"), rs, flat;
    case NotJson => return Err("trigger failed: failed to parse trigger response as JSON"), rs, flat;
    case Parsed(fields) =>
      var index := FlatIndex.FlattenJSON(wire.printer, fields);
      flat := index;
      var passed;
      passed, rs := RunChecks(cfg.checks, index, wire, vars, rng);
      if !passed { return Err("trigger failed: assertion failed"), rs, flat; }
      var extracted := Extract(cfg.extract, index, wire.printer);
      r := Ok(extracted);
  }

  // ---- The whole call ----

  function PartsOf(q: Request, rs: seq<Render>): Parts {
    Parts(Texts(Renders(q.headerLog)), Texts(Renders(q.bodyLog)), Texts(rs))
  }

  lemma GuardReadsAll(url: string, headers: map<string, string>, body: string)
    ensures HasUnresolved(url) <==> HasHole(Parse(url))
    ensures HasUnresolved(body) <==> HasHole(Parse(body))
    ensures forall k <- headers :: HasUnresolved(headers[k]) <==> HasHole(Parse(headers[k]))
  {
    Operators.GuardReads(url);
    Operators.GuardReads(body);
    forall k <- headers { Operators.GuardReads(headers[k]); }
  }

  /** Execute. Nothing that is sent holds a placeholder. The ghost results say what was rendered and how it came out. */
  method Execute(cfg: Config, runID: string, vars: Vars, rng: Random, wire: Wire)
    returns (r: Outcome, sent: bool, ghost q: Request, ghost rs: seq<Render>, ghost flat: map<string, string>)
    modifies vars, rng
    ensures Executed(cfg, runID, old(vars.entries), PartsOf(q, rs), vars.entries, r, sent)
    ensures Rendering(cfg, wire, rng.stream, Snap(old(vars.entries)["run_id" := runID], old(rng.used)), q)
    ensures sent <==>
              && q.body.Some? && !HasHole(Parse(q.url.out)) && !HasHole(Parse(q.body.value))
              && (forall k <- q.headers :: !HasHole(Parse(q.headers[k])))
              && wire.buildable(q.url.out)
    ensures sent ==> Answers(cfg, wire.send(q.url.out, q.headers, q.body.value), wire, rs, flat, r)
    ensures r.Ok? && (cfg.extract != map[] || cfg.checks != []) ==>
              Indexed(wire.send(q.url.out, q.headers, q.body.value), wire, flat)
  {
    vars.entries := vars.entries["run_id" := runID];
    ghost var s := Snap(vars.entries, rng.used);
    var url, headers, body;
    url, headers, body, q := RenderRequest(cfg, vars, rng, wire);
    rs, flat, sent := [], map[], false;
    RenderedParts(cfg, wire, rng.stream, s, q, rs, q.end);
    if body == None { return Err("trigger failed: failed to serialize trigger body"), sent, q, rs, flat; }
    GuardReadsAll(url, headers, body.value);
    if HasUnresolved(url) || (exists k <- headers :: HasUnresolved(headers[k])) || HasUnresolved(body.value) {
      return Err("trigger failed: contains an unresolved template placeholder"), sent, q, rs, flat;
    }
    if !wire.buildable(url) { return Err("trigger failed: failed to create trigger request"), sent, q, rs, flat; }
    sent := true;
    r, rs, flat := ReadReply(cfg, wire.send(url, headers, body.value), wire, vars, rng);
    RenderedParts(cfg, wire, rng.stream, s, q, rs, Snap(vars.entries, rng.used));
  }

  /** URL, headers, body and assertions together: their texts, and their effect on the variables. */
  lemma RenderedParts(cfg: Config, wire: Wire, draw: nat -> string, s: Snap, q: Request, rs: seq<Render>, last: Snap)
    requires Rendering(cfg, wire, draw, s, q) && Rendered(rs, q.end, Firing(draw), last)
    ensures var parts := PartsOf(q, rs);
            && multiset(parts.headers) == HeaderTexts(cfg) && multiset(parts.body) == BodyTexts(cfg)
            && last.vars == Effect([cfg.url] + parts.headers + parts.body + parts.checks, s.vars)
  {
    var parts := PartsOf(q, rs);
    RenderedEffect(Renders(q.headerLog), q.url.after, draw, q.mid);
    if cfg.body.Some? { RenderedEffect(Renders(q.bodyLog), q.mid, draw, q.end); }
    RenderedEffect(rs, q.end, draw, last);
    EffectAppend([cfg.url] + parts.headers + parts.body, parts.checks, s.vars);
    EffectAppend([cfg.url] + parts.headers, parts.body, s.vars);
    EffectAppend([cfg.url], parts.headers, s.vars);
    assert [cfg.url][1..] == [];
  }

  /** What the guard sees of the URL or of a header, at the variables that rendering met. */
  lemma RenderGuard(r: Render, s: Snap, draw: nat -> string)
    requires Fires(r, s, draw) && IsTemplate(r.text) && Clean(s.vars, Parse(r.text)) && forall i :: BraceFree(draw(i))
    ensures HasUnresolved(r.out) <==>
            exists x :: Hole(x) in Parse(r.text) && !TemplateLaws.Resolvable(x, Parse(r.text), s.vars)
  {
    TemplateLaws.GuardExact(r.text, s.vars, r.order, draw, s.used);
  }

  // ---- Counters across one call ----

  /** How often op is applied to c in the URL, the headers and the body. */
  ghost function ConfigUses(op: string, c: string, cfg: Config): nat {
    Uses(op, c, cfg.url) + Total(op, c, Listing(HeaderTexts(cfg))) + Total(op, c, Listing(BodyTexts(cfg)))
  }

  ghost predicate ConfigOfTemplates(cfg: Config) {
    && IsTemplate(cfg.url)
    && (forall t <- HeaderTexts(cfg) :: IsTemplate(t))
    && (forall t <- BodyTexts(cfg) :: IsTemplate(t))
    && (forall t <- CheckTexts(cfg.checks) :: IsTemplate(t))
  }

  lemma TotalOfParts(op: string, c: string, cfg: Config, parts: Parts)
    requires multiset(parts.headers) == HeaderTexts(cfg) && multiset(parts.body) == BodyTexts(cfg)
    requires parts.checks <= CheckTexts(cfg.checks) && Total(op, c, CheckTexts(cfg.checks)) == 0
    ensures Total(op, c, [cfg.url] + parts.headers + parts.body + parts.checks) == ConfigUses(op, c, cfg)
  {
    TotalAppend(op, c, [cfg.url] + parts.headers + parts.body, parts.checks);
    TotalAppend(op, c, [cfg.url] + parts.headers, parts.body);
    TotalAppend(op, c, [cfg.url], parts.headers);
    assert [cfg.url][1..] == [] && Total(op, c, [cfg.url]) == Uses(op, c, cfg.url) + Total(op, c, []);
    TotalOrderFree(op, c, parts.headers, Listing(HeaderTexts(cfg)));
    TotalOrderFree(op, c, parts.body, Listing(BodyTexts(cfg)));
    TotalAppend(op, c, parts.checks, CheckTexts(cfg.checks)[|parts.checks|..]);
    assert parts.checks + CheckTexts(cfg.checks)[|parts.checks|..] == CheckTexts(cfg.checks);
  }

  lemma MembersOfParts(cfg: Config, parts: Parts)
    requires multiset(parts.headers) == HeaderTexts(cfg) && multiset(parts.body) == BodyTexts(cfg)
    requires parts.checks <= CheckTexts(cfg.checks) && ConfigOfTemplates(cfg)
    ensures AllTemplates([cfg.url] + parts.headers + parts.body + parts.checks)
  {
    forall t | t in [cfg.url] + parts.headers + parts.body + parts.checks ensures IsTemplate(t) {
      if t in parts.headers {
        assert t in multiset(parts.headers);
      } else if t in parts.body {
        assert t in multiset(parts.body);
      }
    }
  }

  /** One call moves a counter the assertions leave alone by its uses in URL, headers and body,
      whether the call succeeds, fails, or is stopped by the guard. */
  lemma ExecuteMovesCounter(cfg: Config, runID: string, vars: Env, parts: Parts, vars': Env, r: Outcome, sent: bool,
                            c: string, k: int)
    requires Executed(cfg, runID, vars, parts, vars', r, sent) && ConfigOfTemplates(cfg)
    requires c != "run_id" && Counter(vars, c) == Some(k)
    requires Total("++", c, CheckTexts(cfg.checks)) == 0 && Total("--", c, CheckTexts(cfg.checks)) == 0
    ensures Counter(vars', c) == Some(Net(k, ConfigUses("++", c, cfg), ConfigUses("--", c, cfg)))
  {
    var vars1 := vars["run_id" := runID];
    CounterInt64(vars, c);
    MembersOfParts(cfg, parts);
    TotalOfParts("++", c, cfg, parts);
    TotalOfParts("--", c, cfg, parts);
    EffectConserves([cfg.url] + parts.headers + parts.body + parts.checks, vars1, c, k);
  }
}
