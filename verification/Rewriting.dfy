/** The three text rewritings of the template engine (a ReplaceAll per variable, the two counter
    regular expressions and the generator regular expression) on flat strings, and their meaning
    on templates read as literals and placeholders. */
module Rewriting {
  import opened Text

  // ---- Rewriting flat strings ----

  /** Variable is strings.ReplaceAll of {{key}}, Step is incrementRegex or decrementRegex with its
      callback, Generator is generatorRegex with its callback; draw supplies the random texts. */
  datatype Rule =
    | Variable(key: string, value: string)
    | Step(op: string, delta: int)
    | Generator(draw: nat -> string)

  const INCREMENT := Step("++", 1)
  const DECREMENT := Step("--", -1)

  datatype State = State(vars: Env, drawn: nat)

  datatype Hit = Miss | Hit(len: nat, text: string, next: State)

  /** The integer a counter operator starts from: 0 if absent, None if the text is no integer. */
  function Counter(vars: Env, name: string): Option<int> {
    if name in vars then ParseVarInt(vars[name]) else Some(0)
  }

  predicate IsWordChar(c: char) {
    IsDigit(c) || 'a' <= c <= 'z' || 'A' <= c <= 'Z' || c == '_'
  }

  function WordLen(s: string): (n: nat)
    ensures n <= |s|
  {
    if s != "" && IsWordChar(s[0]) then 1 + WordLen(s[1..]) else 0
  }

  /** generators.Resolve, as far as acceptance goes. */
  predicate Accepts(name: string, args: string) {
    || (name == "uuid" && args == "")
    || (name == "randomInt" && var n := ParseInt(TrimSpace(args)); n.Some? && n.value > 0)
  }

  /** The argument, when s starts with two braces, w characters, and (argument)}}. */
  function CallAt(s: string, w: nat): (r: Option<string>)
    ensures r.Some? ==> w + |r.value| + 6 <= |s|
  {
    if |s| <= 2 + w || s[2 + w] != '(' then None
    else
      var rest := s[3 + w..];
      var j := Find(rest, ')');
      if HasPrefix(rest[j..], ")}}") then Some(rest[..j]) else None
  }

  /** The name and argument of a generator call at the start of s. */
  function GeneratorCallAt(s: string): (r: Option<(string, string)>)
    ensures r.Some? ==> HasPrefix(s, "{{") && |r.value.0| + |r.value.1| + 6 <= |s|
  {
    if !HasPrefix(s, "{{") || WordLen(s[2..]) == 0 then None
    else
      var w := WordLen(s[2..]);
      match CallAt(s, w)
      case None => None
      case Some(args) => Some((s[2..2 + w], args))
  }

  function Advance(rule: Rule, name: string, st: State): Option<(string, State)>
    requires rule.Step?
  {
    match Counter(st.vars, name)
    case None => None
    case Some(cur) =>
      var text := FormatInt(Wrap64(cur + rule.delta));
      Some((text, st.(vars := st.vars[name := text])))
  }

  function Generate(draw: nat -> string, name: string, args: string, st: State): Option<(string, State)> {
    if Accepts(name, args) then Some((draw(st.drawn), st.(drawn := st.drawn + 1))) else None
  }

  /** What the rule does at the very start of s. A counter or generator that is refused is
      matched and copied. */
  function MatchAt(rule: Rule, s: string, st: State): (h: Hit)
    ensures h.Hit? ==> 0 < h.len <= |s| && HasPrefix(s, "{{")
  {
    match rule
    case Variable(k, v) =>
      if HasPrefix(s, "{{" + k + "}}") then Hit(|k| + 4, v, st) else Miss
    case Step(op, delta) =>
      if !HasPrefix(s, "{{" + op) then Miss
      else
        (match CallAt(s, |op|)
         case None => Miss
         case Some(raw) =>
           var len := |op| + |raw| + 6;
           match Advance(rule, TrimSpace(raw), st)
           case None => Hit(len, s[..len], st)
           case Some((text, next)) => Hit(len, text, next))
    case Generator(draw) =>
      match GeneratorCallAt(s)
      case None => Miss
      case Some((name, args)) =>
        var len := |name| + |args| + 6;
        match Generate(draw, name, args, st)
        case None => Hit(len, s[..len], st)
        case Some((text, next)) => Hit(len, text, next)
  }

  /** Leftmost, non-overlapping replacement over the whole string. */
  function Scan(rule: Rule, s: string, st: State): (string, State)
    decreases |s|
  {
    if s == "" then ("", st)
    else match MatchAt(rule, s, st)
      case Miss =>
        var (rest, last) := Scan(rule, s[1..], st);
        (s[..1] + rest, last)
      case Hit(len, text, next) =>
        var (rest, last) := Scan(rule, s[len..], next);
        (text + rest, last)
  }

  predicate IsBrace(c: char) {
    c == '{' || c == '}'
  }

  function BraceFreeLen(s: string): (n: nat)
    ensures n <= |s| && forall i | 0 <= i < n :: !IsBrace(s[i])
    ensures n < |s| ==> IsBrace(s[n])
  {
    if s != "" && !IsBrace(s[0]) then 1 + BraceFreeLen(s[1..]) else 0
  }

  /** The inner text of a placeholder at the very start of s. */
  function HoleAt(s: string): (r: Option<string>)
    ensures r.Some? ==> |r.value| + 4 <= |s|
  {
    if !HasPrefix(s, "{{") then None
    else
      var n := BraceFreeLen(s[2..]);
      if HasPrefix(s[2 + n..], "}}") then Some(s[2..2 + n]) else None
  }

  /** The guard: placeholderRegex matches somewhere. */
  predicate HasUnresolved(s: string) {
    s != "" && (HoleAt(s).Some? || HasUnresolved(s[1..]))
  }

  // ---- Templates as literals and placeholders ----

  datatype Segment = Lit(text: string) | Hole(inner: string)

  predicate BraceFree(s: string) {
    forall i | 0 <= i < |s| :: !IsBrace(s[i])
  }

  /** Every opening parenthesis of the placeholder is closed later in the same placeholder. */
  predicate Closed(x: string) {
    forall i | 0 <= i < |x| && x[i] == '(' :: ')' in x[i..]
  }

  predicate WellFormedSegment(g: Segment) {
    match g
    case Lit(t) => BraceFree(t)
    case Hole(x) => BraceFree(x) && Closed(x)
  }

  predicate WellFormed(segs: seq<Segment>) {
    forall i | 0 <= i < |segs| :: WellFormedSegment(segs[i])
  }

  function Show(g: Segment): string {
    match g
    case Lit(t) => t
    case Hole(x) => "{{" + x + "}}"
  }

  function Print(segs: seq<Segment>): string {
    if segs == [] then "" else Show(segs[0]) + Print(segs[1..])
  }

  /** Every string reads as a template: the leftmost placeholders, and single characters. */
  function Parse(s: string): seq<Segment>
    decreases |s|
  {
    if s == "" then []
    else match HoleAt(s)
      case Some(x) => [Hole(x)] + Parse(s[|x| + 4..])
      case None => [Lit(s[..1])] + Parse(s[1..])
  }

  /** The string is a template whose literals carry no brace and whose placeholders are closed. */
  predicate IsTemplate(s: string) {
    WellFormed(Parse(s))
  }

  function CallArg(x: string, w: nat): Option<string> {
    if |x| <= w || x[w] != '(' then None
    else
      var rest := x[w + 1..];
      var j := Find(rest, ')');
      if j + 1 == |rest| then Some(rest[..j]) else None
  }

  /** The variable a counter placeholder names. */
  function OpName(op: string, x: string): Option<string> {
    if !HasPrefix(x, op) then None
    else match CallArg(x, |op|)
      case None => None
      case Some(raw) => Some(TrimSpace(raw))
  }

  /** The name and arguments of a generator call. */
  function GeneratorCall(x: string): (r: Option<(string, string)>)
    ensures r.Some? ==> |r.value.0| + |r.value.1| + 2 == |x|
  {
    var w := WordLen(x);
    if w == 0 then None
    else match CallArg(x, w)
      case None => None
      case Some(args) => Some((x[..w], args))
  }

  /** The meaning of a rule on one placeholder. */
  function OnHole(rule: Rule, x: string, st: State): (Segment, State) {
    match rule
    case Variable(k, v) => if x == k then (Lit(v), st) else (Hole(x), st)
    case Step(op, delta) =>
      (match OpName(op, x)
       case None => (Hole(x), st)
       case Some(name) =>
         match Advance(rule, name, st)
         case None => (Hole(x), st)
         case Some((text, next)) => (Lit(text), next))
    case Generator(draw) =>
      match GeneratorCall(x)
      case None => (Hole(x), st)
      case Some((name, args)) =>
        match Generate(draw, name, args, st)
        case None => (Hole(x), st)
        case Some((text, next)) => (Lit(text), next)
  }

  function OnSegment(rule: Rule, g: Segment, st: State): (Segment, State) {
    match g
    case Lit(_) => (g, st)
    case Hole(x) => OnHole(rule, x, st)
  }

  function ScanSegments(rule: Rule, segs: seq<Segment>, st: State): (r: (seq<Segment>, State))
    ensures |r.0| == |segs|
  {
    if segs == [] then ([], st)
    else
      var (g, next) := OnSegment(rule, segs[0], st);
      var (rest, last) := ScanSegments(rule, segs[1..], next);
      ([g] + rest, last)
  }

  predicate WellFormedRule(rule: Rule) {
    match rule
    case Variable(k, _) => BraceFree(k)
    case Step(op, _) => BraceFree(op) && '(' !in op
    case Generator(_) => true
  }

  // ---- The string rewriting refines the meaning on placeholders ----

  /** Nothing opens inside t when t stands before rest. */
  ghost predicate Quiet(t: string, rest: string, miss: string -> bool) {
    forall i | 0 <= i < |t| :: miss((t + rest)[i..])
  }

  lemma QuietTail(t: string, rest: string, miss: string -> bool)
    requires t != "" && Quiet(t, rest, miss)
    ensures miss(t + rest) && Quiet(t[1..], rest, miss)
    ensures (t + rest)[..1] == t[..1] && (t + rest)[1..] == t[1..] + rest
  {
    var s := t + rest;
    assert s[0..] == s && miss(s[0..]);
    forall i | 0 <= i < |t[1..]| ensures miss((t[1..] + rest)[i..]) {
      assert (t[1..] + rest)[i..] == s[i + 1..];
    }
  }

  lemma HeadAndRest(t: string, more: string)
    requires t != ""
    ensures t[..1] + (t[1..] + more) == t + more
  {
  }

  ghost function Misses(rule: Rule, st: State): string -> bool {
    s => MatchAt(rule, s, st).Miss?
  }

  lemma {:induction false} ScanSkips(rule: Rule, t: string, rest: string, st: State)
    requires Quiet(t, rest, Misses(rule, st))
    ensures Scan(rule, t + rest, st) == (t + Scan(rule, rest, st).0, Scan(rule, rest, st).1)
  {
    var r := Scan(rule, rest, st).0;
    if t == "" {
      assert t + rest == rest && t + r == r;
    } else {
      QuietTail(t, rest, Misses(rule, st));
      ScanSkips(rule, t[1..], rest, st);
      HeadAndRest(t, r);
    }
  }

  ghost const NoOpening: string -> bool := s => !HasPrefix(s, "{{")

  lemma SegmentQuiet(g: Segment, rest: string)
    requires WellFormedSegment(g) && g.Lit?
    ensures Quiet(Show(g), rest, NoOpening)
  {
    forall i: nat | i < |Show(g)| ensures NoOpening((Show(g) + rest)[i..]) { NoOpenBrace(g, rest, i); }
  }

  /** Past its first character, a segment opens no placeholder. */
  lemma NoOpenBrace(g: Segment, rest: string, i: nat)
    requires WellFormedSegment(g) && i < |Show(g)| && (g.Hole? ==> i > 0)
    ensures !HasPrefix((Show(g) + rest)[i..], "{{")
  {
    var s := Show(g) + rest;
    assert |s[i..]| >= 1 && s[i..][0] == s[i];
    if i + 1 < |s| { assert s[i..][1] == s[i + 1]; }
  }

  lemma PrefixOfHole(x: string, y: string, rest: string)
    requires BraceFree(x) && BraceFree(y)
    ensures HasPrefix("{{" + x + "}}" + rest, "{{" + y) <==> HasPrefix(x, y)
  {
    var s := "{{" + x + "}}" + rest;
    assert forall i | 0 <= i < |y| :: y[i] == ("{{" + y)[i + 2];
    assert forall i | 0 <= i < |x| :: x[i] == s[i + 2];
    assert s[|x| + 2] == '}';
  }

  lemma FindInside(a: string, more: string)
    requires ')' in a && BraceFree(a) && HasPrefix(more, "}}")
    ensures var j := Find(a, ')');
            && Find(a + more, ')') == j && (a + more)[..j] == a[..j]
            && (HasPrefix((a + more)[j..], ")}}") <==> j + 1 == |a|)
  {
    var j := Find(a, ')');
    assert j < |a|;
    assert (a + more)[..j] == a[..j];
    FindAt(a + more, ')', j);
    var tail := (a + more)[j..];
    assert tail[0] == ')' && tail[1] == (a + more)[j + 1] && tail[2] == (a + more)[j + 2];
  }

  lemma CallAtHole(x: string, w: nat, rest: string)
    requires BraceFree(x) && Closed(x) && w <= |x|
    ensures CallAt("{{" + x + "}}" + rest, w) == CallArg(x, w)
  {
    var s := "{{" + x + "}}" + rest;
    if w < |x| && x[w] == '(' {
      var a := x[w + 1..];
      assert s[3 + w..] == a + ("}}" + rest);
      assert x[w..] == ['('] + a;
      assert ')' in a;
      FindInside(a, "}}" + rest);
    }
  }

  lemma {:induction false} WordLenOfHole(x: string, rest: string)
    ensures WordLen(x + "}}" + rest) == WordLen(x)
  {
    if x != "" && IsWordChar(x[0]) {
      assert (x + "}}" + rest)[1..] == x[1..] + "}}" + rest;
      WordLenOfHole(x[1..], rest);
    }
  }

  lemma KeyHole(x: string, k: string, rest: string)
    requires BraceFree(x) && BraceFree(k)
    ensures HasPrefix("{{" + x + "}}" + rest, "{{" + k + "}}") <==> x == k
  {
    var s := "{{" + x + "}}" + rest;
    var p := "{{" + k + "}}";
    assert forall i | 0 <= i < |k| :: k[i] == p[i + 2];
    assert forall i | 0 <= i < |x| :: x[i] == s[i + 2];
    assert s[|x| + 2] == '}' && p[|k| + 2] == '}';
    if HasPrefix(s, p) {
      assert |x| == |k| && forall i | 0 <= i < |k| :: x[i] == k[i];
    }
  }

  ghost predicate Agree(h: Hit, x: string, r: (Segment, State), st: State) {
    if h.Miss? then r == (Hole(x), st) else h == Hit(|x| + 4, Show(r.0), r.1)
  }

  lemma StepMatch(op: string, delta: int, x: string, rest: string, st: State)
    requires BraceFree(op) && '(' !in op && BraceFree(x) && Closed(x)
    ensures Agree(MatchAt(Step(op, delta), "{{" + x + "}}" + rest, st), x, OnHole(Step(op, delta), x, st), st)
  {
    var s := "{{" + x + "}}" + rest;
    PrefixOfHole(x, op, rest);
    if HasPrefix(x, op) {
      CallAtHole(x, |op|, rest);
      if CallArg(x, |op|).Some? {
        assert s[..|x| + 4] == "{{" + x + "}}";
      }
    }
  }

  lemma HoleInner(x: string, rest: string, w: nat)
    requires w <= |x|
    ensures ("{{" + x + "}}" + rest)[2..] == x + "}}" + rest
    ensures ("{{" + x + "}}" + rest)[2..2 + w] == x[..w]
  {
  }

  lemma GeneratorCallAtHole(x: string, rest: string)
    requires BraceFree(x) && Closed(x)
    ensures GeneratorCallAt("{{" + x + "}}" + rest) == GeneratorCall(x)
  {
    var w := WordLen(x);
    HoleInner(x, rest, w);
    WordLenOfHole(x, rest);
    CallAtHole(x, w, rest);
    SameGeneratorCall("{{" + x + "}}" + rest, x, w);
  }

  lemma SameGeneratorCall(s: string, x: string, w: nat)
    requires HasPrefix(s, "{{") && WordLen(s[2..]) == w == WordLen(x)
    requires s[2..2 + w] == x[..w] && CallAt(s, w) == CallArg(x, w)
    ensures GeneratorCallAt(s) == GeneratorCall(x)
  {
  }

  lemma GeneratorMatch(draw: nat -> string, x: string, rest: string, st: State)
    requires BraceFree(x) && Closed(x)
    ensures Agree(MatchAt(Generator(draw), "{{" + x + "}}" + rest, st), x, OnHole(Generator(draw), x, st), st)
  {
    GeneratorCallAtHole(x, rest);
    assert ("{{" + x + "}}" + rest)[..|x| + 4] == Show(Hole(x));
  }

  /** On a placeholder, matching the flat string does what the meaning says. */
  lemma HoleMatch(rule: Rule, x: string, rest: string, st: State)
    requires WellFormedRule(rule) && BraceFree(x) && Closed(x)
    ensures Agree(MatchAt(rule, "{{" + x + "}}" + rest, st), x, OnHole(rule, x, st), st)
  {
    match rule
    case Variable(k, v) => KeyHole(x, k, rest);
    case Step(op, delta) => StepMatch(op, delta, x, rest, st);
    case Generator(draw) => GeneratorMatch(draw, x, rest, st);
  }

  lemma ScanHead(rule: Rule, g: Segment, rest: string, st: State)
    requires WellFormedRule(rule) && WellFormedSegment(g)
    ensures var (g', next) := OnSegment(rule, g, st);
            var (out, last) := Scan(rule, rest, next);
            Scan(rule, Show(g) + rest, st) == (Show(g') + out, last)
  {
    var s := Show(g) + rest;
    assert s[0..] == s;
    if g.Hole? { HoleMatch(rule, g.inner, rest, st); }
    if g.Lit? || MatchAt(rule, s, st).Miss? {
      forall i: nat | i < |Show(g)| ensures Misses(rule, st)(s[i..]) {
        if g.Lit? || i > 0 { NoOpenBrace(g, rest, i); }
      }
      ScanSkips(rule, Show(g), rest, st);
    } else {
      assert s[|Show(g)|..] == rest;
    }
  }

  /** The refinement: rewriting the printed template prints the rewritten template. */
  lemma {:induction false} ScanPrint(rule: Rule, segs: seq<Segment>, st: State)
    requires WellFormedRule(rule) && WellFormed(segs)
    ensures var (out, last) := ScanSegments(rule, segs, st);
            Scan(rule, Print(segs), st) == (Print(out), last)
  {
    if segs != [] {
      var (g, next) := OnSegment(rule, segs[0], st);
      ScanHead(rule, segs[0], Print(segs[1..]), st);
      ScanPrint(rule, segs[1..], next);
      var out := ScanSegments(rule, segs[1..], next).0;
      assert ([g] + out)[1..] == out;
    }
  }

  lemma {:induction false} BraceFreeLenOfHole(x: string, rest: string)
    requires BraceFree(x)
    ensures BraceFreeLen(x + "}}" + rest) == |x|
  {
    var s := x + "}}" + rest;
    assert s[|x|] == '}';
    assert forall i | 0 <= i < |x| :: s[i] == x[i];
  }

  lemma HoleAtHole(x: string, rest: string)
    requires BraceFree(x)
    ensures HoleAt("{{" + x + "}}" + rest) == Some(x)
  {
    var s := "{{" + x + "}}" + rest;
    assert s[2..] == x + "}}" + rest;
    BraceFreeLenOfHole(x, rest);
    assert s[2 + |x|..] == "}}" + rest;
    assert s[2..2 + |x|] == x;
  }

  predicate HasHole(segs: seq<Segment>) {
    exists i :: 0 <= i < |segs| && segs[i].Hole?
  }

  lemma {:induction false} UnresolvedSkips(t: string, rest: string)
    requires Quiet(t, rest, NoOpening)
    ensures HasUnresolved(t + rest) == HasUnresolved(rest)
  {
    if t == "" {
      assert t + rest == rest;
    } else {
      QuietTail(t, rest, NoOpening);
      UnresolvedSkips(t[1..], rest);
    }
  }

  /** The guard fires exactly on the templates that still hold a placeholder. */
  lemma {:induction false} GuardOnPrint(segs: seq<Segment>)
    requires WellFormed(segs)
    ensures HasUnresolved(Print(segs)) <==> HasHole(segs)
  {
    if segs != [] {
      var rest := Print(segs[1..]);
      match segs[0]
      case Lit(t) =>
        SegmentQuiet(segs[0], rest);
        UnresolvedSkips(t, rest);
        GuardOnPrint(segs[1..]);
        if HasHole(segs) {
          var i :| 0 <= i < |segs| && segs[i].Hole?;
          assert segs[1..][i - 1].Hole?;
        }
      case Hole(x) =>
        HoleAtHole(x, rest);
        assert segs[0].Hole?;
    }
  }

  // ---- Reading and printing templates are inverse ----

  function Characters(t: string): seq<Segment> {
    if t == "" then [] else [Lit(t[..1])] + Characters(t[1..])
  }

  function Fine(segs: seq<Segment>): seq<Segment> {
    if segs == [] then []
    else (match segs[0] case Lit(t) => Characters(t) case Hole(x) => [Hole(x)]) + Fine(segs[1..])
  }

  lemma HoleAtShape(s: string, x: string)
    requires HoleAt(s) == Some(x)
    ensures s == "{{" + x + "}}" + s[|x| + 4..]
  {
    assert s[2 + |x|..][0] == s[2 + |x|] && s[2 + |x|..][1] == s[3 + |x|];
  }

  /** Printing what was read gives the string back, for every string. */
  lemma {:induction false} PrintParse(s: string)
    ensures Print(Parse(s)) == s
    decreases |s|
  {
    if s != "" {
      match HoleAt(s)
      case Some(x) =>
        HoleAtShape(s, x);
        PrintParse(s[|x| + 4..]);
      case None =>
        PrintParse(s[1..]);
    }
  }

  lemma {:induction false} ParseSkips(t: string, rest: string)
    requires Quiet(t, rest, NoOpening)
    ensures Parse(t + rest) == Characters(t) + Parse(rest)
  {
    if t == "" {
      assert t + rest == rest;
    } else {
      QuietTail(t, rest, NoOpening);
      ParseSkips(t[1..], rest);
      ParseText(t + rest, Characters(t[1..]), Parse(rest));
    }
  }

  lemma ParseText(s: string, chars: seq<Segment>, more: seq<Segment>)
    requires s != "" && NoOpening(s) && Parse(s[1..]) == chars + more
    ensures Parse(s) == ([Lit(s[..1])] + chars) + more
  {
  }

  lemma {:induction false} ParsePrint(segs: seq<Segment>)
    requires WellFormed(segs)
    ensures Parse(Print(segs)) == Fine(segs) && IsTemplate(Print(segs))
  {
    if segs != [] {
      var rest := Print(segs[1..]);
      ParsePrint(segs[1..]);
      match segs[0]
      case Lit(t) =>
        SegmentQuiet(segs[0], rest);
        ParseSkips(t, rest);
        CharactersWellFormed(t);
      case Hole(x) =>
        HoleAtHole(x, rest);
        var s := "{{" + x + "}}" + rest;
        assert Show(segs[0]) + rest == s;
        assert s[|x| + 4..] == rest;
    }
  }

  lemma {:induction false} CharactersWellFormed(t: string)
    requires BraceFree(t)
    ensures WellFormed(Characters(t))
  {
    if t != "" { CharactersWellFormed(t[1..]); }
  }
}
