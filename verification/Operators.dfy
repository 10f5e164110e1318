/** What placeholders, counter operators and generator calls look like in a text, and which
    generator calls are accepted. */
module Operators {
  import opened Text
  import opened TextLaws
  import opened Rewriting

  // ---- Placeholders ----

  /** w stands somewhere in s. */
  ghost predicate Within(w: string, s: string) {
    exists a, b :: s == a + w + b
  }

  predicate NoBrace(x: string) {
    '{' !in x && '}' !in x
  }

  lemma HoleFound(s: string, x: string, rest: string)
    requires HoleAt(s) == Some(x) && rest == s[|x| + 4..]
    ensures NoBrace(x) && s == "" + Show(Hole(x)) + rest
  {
    HoleAtShape(s, x);
    forall i | 0 <= i < |x| ensures !IsBrace(x[i]) { assert x[i] == s[2..][i]; }
  }

  lemma {:induction false} GuardFinds(s: string) returns (a: string, x: string, b: string)
    requires HasUnresolved(s)
    ensures NoBrace(x) && s == a + Show(Hole(x)) + b
  {
    if HoleAt(s).Some? {
      x := HoleAt(s).value;
      a, b := "", s[|x| + 4..];
      HoleFound(s, x, b);
    } else {
      var before;
      before, x, b := GuardFinds(s[1..]);
      a := s[..1] + before;
      var hole := Show(Hole(x));
      assert s == s[..1] + (before + hole + b) == a + hole + b;
    }
  }

  lemma {:induction false} GuardFires(a: string, x: string, b: string, s: string)
    requires NoBrace(x) && s == a + Show(Hole(x)) + b
    ensures HasUnresolved(s)
  {
    if a == "" {
      assert s == "{{" + x + "}}" + b;
      HoleAtHole(x, b);
    } else {
      assert s[1..] == a[1..] + Show(Hole(x)) + b;
      GuardFires(a[1..], x, b, s[1..]);
    }
  }

  /** The regular expression of the guard: two opening braces, no brace, two closing ones, anywhere. */
  lemma GuardExactly(s: string)
    ensures HasUnresolved(s) <==> exists x :: NoBrace(x) && Within("{{" + x + "}}", s)
  {
    if HasUnresolved(s) {
      var a, x, b := GuardFinds(s);
      assert s == a + ("{{" + x + "}}") + b;
    }
    if x :| NoBrace(x) && Within("{{" + x + "}}", s) {
      var a, b :| s == a + ("{{" + x + "}}") + b;
      GuardFires(a, x, b, s);
    }
  }

  /** The guard fires exactly on the strings that read with a placeholder. */
  lemma {:induction false} GuardReads(s: string)
    ensures HasUnresolved(s) <==> HasHole(Parse(s))
    decreases |s|
  {
    if s != "" {
      match HoleAt(s)
      case Some(x) =>
        assert Parse(s)[0] == Hole(x);
      case None =>
        GuardReads(s[1..]);
        assert Parse(s) == [Lit(s[..1])] + Parse(s[1..]);
        if i :| 0 <= i < |Parse(s[1..])| && Parse(s[1..])[i].Hole? { assert Parse(s)[i + 1].Hole?; }
    }
  }

  // ---- Calls ----

  lemma CallEnds(tail: string, raw: string, more: string)
    requires tail == raw + more && ')' !in raw && more != "" && more[0] == ')'
    ensures Find(tail, ')') == |raw| && tail[..|raw|] == raw && tail[|raw|..] == more
  {
    FindAt(tail, ')', |raw|);
  }

  lemma CallAtText(s: string, w: nat, raw: string, rest: string)
    requires CallAt(s, w) == Some(raw) && rest == s[w + |raw| + 6..]
    ensures ')' !in raw && s == s[..2 + w] + "(" + raw + ")}}" + rest
  {
    var tail := s[3 + w..];
    assert tail == raw + tail[|raw|..];
    assert tail[|raw|..] == ")}}" + rest by {
      var end := tail[|raw|..];
      assert end[0] == ')' && end[1] == '}' && end[2] == '}' && end[3..] == rest;
      assert end == end[..3] + end[3..];
    }
    assert s == s[..2 + w] + [s[2 + w]] + tail;
  }

  lemma CallAtFinds(pre: string, raw: string, rest: string, s: string)
    requires |pre| >= 2 && ')' !in raw && s == pre + "(" + raw + ")}}" + rest
    ensures CallAt(s, |pre| - 2) == Some(raw)
  {
    var tail := s[1 + |pre|..];
    assert tail == raw + (")}}" + rest) && s[|pre|] == '(';
    CallEnds(tail, raw, ")}}" + rest);
    assert HasPrefix(tail[|raw|..], ")}}");
  }

  /** An argument in parentheses: it ends at the first closing one. */
  lemma CallArgExactly(x: string, w: nat, raw: string)
    ensures CallArg(x, w) == Some(raw) <==> ')' !in raw && w <= |x| && x[w..] == "(" + raw + ")"
  {
    if CallArg(x, w) == Some(raw) {
      assert x[w + 1..] == raw + ")";
      assert x[w..] == [x[w]] + x[w + 1..];
    }
    if ')' !in raw && w <= |x| && x[w..] == "(" + raw + ")" {
      assert x[w..][1..] == x[w + 1..] && x[w..][0] == x[w];
      CallEnds(x[w + 1..], raw, ")");
    }
  }

  lemma Behind(x: string, pre: string, more: string)
    ensures x == pre + more <==> HasPrefix(x, pre) && x[|pre|..] == more
  {
    if HasPrefix(x, pre) { assert x[..|pre|] == pre && x == x[..|pre|] + x[|pre|..]; }
  }

  /** A counter placeholder: the operator and the name in parentheses, with any white space around. */
  lemma OpNameExactly(op: string, x: string, name: string)
    ensures OpName(op, x) == Some(name) <==>
            exists raw :: ')' !in raw && Around(raw, name) && x == op + ("(" + raw + ")")
  {
    if OpName(op, x) == Some(name) {
      var raw := CallArg(x, |op|).value;
      CallArgExactly(x, |op|, raw);
      TrimSpaceExactly(raw, name);
      Behind(x, op, "(" + raw + ")");
    }
    if raw :| ')' !in raw && Around(raw, name) && x == op + ("(" + raw + ")") {
      Behind(x, op, "(" + raw + ")");
      CallArgExactly(x, |op|, raw);
      TrimSpaceExactly(raw, name);
    }
  }

  // ---- Generators ----

  predicate Word(s: string) {
    forall i | 0 <= i < |s| :: '0' <= s[i] <= '9' || 'A' <= s[i] <= 'Z' || s[i] == '_' || 'a' <= s[i] <= 'z'
  }

  lemma {:induction false} WordLenAt(s: string, w: nat)
    requires w <= |s| && Word(s[..w]) && (w < |s| ==> s[w] == '(')
    ensures WordLen(s) == w
  {
    if w > 0 {
      assert s[..w][0] == s[0] && s[..w][1..] == s[1..][..w - 1];
      WordLenAt(s[1..], w - 1);
    }
  }

  lemma {:induction false} WordLenReads(s: string)
    ensures Word(s[..WordLen(s)])
  {
    if s != "" && IsWordChar(s[0]) {
      WordLenReads(s[1..]);
      assert s[..WordLen(s)] == [s[0]] + s[1..][..WordLen(s[1..])];
    }
  }

  function Call(name: string, args: string): string {
    name + ("(" + args + ")")
  }

  /** A generator placeholder: a word and an argument in parentheses. */
  lemma GeneratorCallExactly(x: string, name: string, args: string)
    ensures GeneratorCall(x) == Some((name, args)) <==>
            name != "" && Word(name) && ')' !in args && x == Call(name, args)
  {
    if GeneratorCall(x) == Some((name, args)) {
      WordLenReads(x);
      CallArgExactly(x, |name|, args);
      Behind(x, name, "(" + args + ")");
    }
    if name != "" && Word(name) && ')' !in args && x == Call(name, args) {
      Behind(x, name, "(" + args + ")");
      assert x[..|name|] == name && x[|name|] == x[|name|..][0];
      WordLenAt(x, |name|);
      CallArgExactly(x, |name|, args);
    }
  }

  ghost predicate PositiveNumber(args: string) {
    exists n :: n > 0 && Reads(args, n)
  }

  lemma PositiveExactly(args: string)
    ensures PositiveNumber(args) <==> ParseInt(TrimSpace(args)).Some? && ParseInt(TrimSpace(args)).value > 0
  {
    if ParseVarInt(args).Some? { ParseVarIntExactly(args, ParseVarInt(args).value); }
    if n :| n > 0 && Reads(args, n) { ParseVarIntExactly(args, n); }
  }

  /** An accepted generator call: uuid without argument, or randomInt of a positive number. */
  ghost predicate Generates(x: string) {
    x == Call("uuid", "") || exists args :: PositiveNumber(args) && ')' !in args && x == Call("randomInt", args)
  }

  lemma AcceptedGenerates(x: string, name: string, args: string)
    requires GeneratorCall(x) == Some((name, args)) && Accepts(name, args)
    ensures Generates(x)
  {
    GeneratorCallExactly(x, name, args);
    PositiveExactly(args);
  }

  lemma UuidAccepted(x: string)
    requires x == Call("uuid", "")
    ensures GeneratorCall(x) == Some(("uuid", ""))
  {
    GeneratorCallExactly(x, "uuid", "");
  }

  lemma RandomIntRead(x: string, args: string)
    requires ')' !in args && x == Call("randomInt", args)
    ensures GeneratorCall(x) == Some(("randomInt", args))
  {
    GeneratorCallExactly(x, "randomInt", args);
  }

  lemma GeneratesExactly(x: string)
    ensures Generates(x) <==> GeneratorCall(x).Some? && Accepts(GeneratorCall(x).value.0, GeneratorCall(x).value.1)
  {
    if GeneratorCall(x).Some? {
      var (name, args) := GeneratorCall(x).value;
      if Accepts(name, args) { AcceptedGenerates(x, name, args); }
    }
    if x == Call("uuid", "") { UuidAccepted(x); }
    if args :| PositiveNumber(args) && ')' !in args && x == Call("randomInt", args) {
      PositiveExactly(args);
      RandomIntRead(x, args);
    }
  }

  /** The decimal text of any positive 64-bit number will do. */
  lemma DecimalIsPositive(t: string, n: nat)
    requires IsDecimalNat(t, n) && 0 < n <= 9_223_372_036_854_775_807
    ensures PositiveNumber(t) && ')' !in t
  {
    assert Literal(t, n) && n > 0 && !(')' in t);
    assert Reads(t, n) by {
      AroundItself(t);
    }
  }

  lemma AroundItself(t: string)
    requires t != "" && Digits(t)
    ensures Around(t, t)
  {
    assert Around(t, t) by {
      forall c | '0' <= c <= '9' ensures c !in SPACES { IsSpaceExactly(c); }
      assert t == "" + t + "" && Blank("");
    }
  }

  /** {{uuid()}} and {{randomInt(n)}} generate for every positive n; {{randomInt(0)}} and {{uuid(a)}}
      do not. */
  lemma Generators(t: string, n: nat, a: string)
    requires IsDecimalNat(t, n) && 0 < n <= 9_223_372_036_854_775_807 && a != ""
    ensures Generates("uuid()") && Generates(Call("randomInt", t))
    ensures !Generates("randomInt(0)") && !Generates(Call("uuid", a))
  {
    DecimalIsPositive(t, n);
    assert Call("uuid", "") == "uuid()";
    ZeroRefused("randomInt(0)");
    ArgumentRefused(Call("uuid", a), a);
  }

  lemma ZeroRefused(x: string)
    requires x == "randomInt(0)"
    ensures !Generates(x)
  {
    assert x == Call("randomInt", "0");
    RandomIntRead(x, "0");
    assert TrimSpace("0") == "0" && ParseInt("0") == Some(0);
    GeneratesExactly(x);
  }

  lemma ArgumentRefused(x: string, a: string)
    requires x == Call("uuid", a) && a != ""
    ensures !Generates(x)
  {
    var word := x[..4];
    assert word == "uuid" && x[4] == '(';
    WordLenAt(x, 4);
    GeneratesExactly(x);
  }
}
