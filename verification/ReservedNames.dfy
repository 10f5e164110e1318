/** Which variables a value can write while it is resolved, for any string: only those that a counter
    operator in it names, and only integers. */
module ReservedNames {
  import opened Text
  import opened TextLaws
  import opened Rewriting
  import opened Operators
  import opened Template

  /** A counter operator on a name. */
  function OpText(op: string, raw: string): string {
    "{{" + op + "(" + raw + ")}}"
  }

  /** An operator on k, with any white space around k, stands somewhere in s. */
  ghost predicate Counts(op: string, k: string, s: string) {
    exists raw :: ')' !in raw && Around(raw, k) && Within(OpText(op, raw), s)
  }

  predicate Same(a: Env, b: Env, k: string) {
    (k in a <==> k in b) && (k in a ==> a[k] == b[k])
  }

  ghost predicate HoldsInteger(vars: Env, k: string) {
    k in vars && exists v :: InInt64(v) && IsDecimal(vars[k], v)
  }

  lemma OperatorRead(op: string, delta: int, s: string, st: State) returns (raw: string, rest: string)
    requires MatchAt(Step(op, delta), s, st).Hit?
    ensures ')' !in raw && s == OpText(op, raw) + rest && CallAt(s, |op|) == Some(raw)
  {
    raw := CallAt(s, |op|).value;
    rest := s[|op| + |raw| + 6..];
    CallAtText(s, |op|, raw, rest);
    OpensWith(s, "{{" + op);
  }

  lemma OpensWith(s: string, p: string)
    requires HasPrefix(s, p)
    ensures s[..|p|] == p
  {
  }

  lemma OperatorFound(op: string, delta: int, s: string, st: State, raw: string, rest: string)
    requires ')' !in raw && s == OpText(op, raw) + rest
    ensures MatchAt(Step(op, delta), s, st).Hit?
  {
    var pre := "{{" + op;
    assert s == pre + "(" + raw + ")}}" + rest;
    CallAtFinds(pre, raw, rest, s);
    assert s[..|pre|] == pre;
    assert HasPrefix(s, pre);
  }

  /** The regular expressions of the operators, at the start of any string: the operator and its argument
      in parentheses, which ends at the first closing one. */
  lemma OperatorMatches(op: string, delta: int, s: string, st: State)
    ensures MatchAt(Step(op, delta), s, st).Hit? <==> exists raw, rest :: ')' !in raw && s == OpText(op, raw) + rest
  {
    if MatchAt(Step(op, delta), s, st).Hit? { var raw, rest := OperatorRead(op, delta, s, st); }
    if raw, rest :| ')' !in raw && s == OpText(op, raw) + rest { OperatorFound(op, delta, s, st, raw, rest); }
  }

  lemma MatchCounts(op: string, delta: int, s: string, st: State)
    requires MatchAt(Step(op, delta), s, st).Hit?
    ensures CallAt(s, |op|).Some? && Counts(op, TrimSpace(CallAt(s, |op|).value), s)
  {
    var raw, rest := OperatorRead(op, delta, s, st);
    TrimSpaceExactly(raw, TrimSpace(raw));
    CountsHere(op, TrimSpace(raw), s, raw, OpText(op, raw), rest);
  }

  lemma CountsHere(op: string, k: string, s: string, raw: string, w: string, rest: string)
    requires ')' !in raw && Around(raw, k) && w == OpText(op, raw) && s == w + rest
    ensures Counts(op, k, s)
  {
    assert s == "" + w + rest;
  }

  lemma LaterCounts(op: string, k: string, s: string, n: nat)
    requires n <= |s| && Counts(op, k, s[n..])
    ensures Counts(op, k, s)
  {
    var raw :| ')' !in raw && Around(raw, k) && Within(OpText(op, raw), s[n..]);
    LaterWithin(OpText(op, raw), s, n);
  }

  lemma LaterWithin(w: string, s: string, n: nat)
    requires n <= |s| && Within(w, s[n..])
    ensures Within(w, s)
  {
    var a, b :| s[n..] == a + w + b;
    assert s == s[..n] + (a + w + b) == (s[..n] + a) + w + b;
  }

  lemma AdvanceHolds(op: string, delta: int, name: string, st: State, k: string)
    requires Advance(Step(op, delta), name, st).Some?
    ensures var after := Advance(Step(op, delta), name, st).value.1.vars;
            Same(st.vars, after, k) || (k == name && HoldsInteger(after, k))
  {
    var v := Wrap64(Counter(st.vars, name).value + delta);
    FormatIntExactly(FormatInt(v), v);
  }

  lemma HitWrites(op: string, delta: int, s: string, st: State, k: string)
    requires MatchAt(Step(op, delta), s, st).Hit?
    ensures var after := MatchAt(Step(op, delta), s, st).next.vars;
            Same(st.vars, after, k) || (Counts(op, k, s) && HoldsInteger(after, k))
  {
    MatchCounts(op, delta, s, st);
    var name := TrimSpace(CallAt(s, |op|).value);
    if Advance(Step(op, delta), name, st).Some? { AdvanceHolds(op, delta, name, st, k); }
  }

  /** One pass over any string: a variable keeps its text, or an operator in the string names it and
      it holds an integer. */
  lemma {:induction false} PassWritesCounted(op: string, delta: int, s: string, st: State, k: string)
    ensures var after := Scan(Step(op, delta), s, st).1.vars;
            Same(st.vars, after, k) || (Counts(op, k, s) && HoldsInteger(after, k))
    decreases |s|
  {
    if s != "" {
      match MatchAt(Step(op, delta), s, st)
      case Miss =>
        PassWritesCounted(op, delta, s[1..], st, k);
        if Counts(op, k, s[1..]) { LaterCounts(op, k, s, 1); }
      case Hit(len, _, next) =>
        HitWrites(op, delta, s, st, k);
        PassWritesCounted(op, delta, s[len..], next, k);
        if Counts(op, k, s[len..]) { LaterCounts(op, k, s, len); }
    }
  }

  /** No variable is lost. */
  lemma {:induction false} PassKeepsNames(op: string, delta: int, s: string, st: State, k: string)
    requires k in st.vars
    ensures k in Scan(Step(op, delta), s, st).1.vars
    decreases |s|
  {
    if s != "" {
      match MatchAt(Step(op, delta), s, st)
      case Miss => PassKeepsNames(op, delta, s[1..], st, k);
      case Hit(len, _, next) => PassKeepsNames(op, delta, s[len..], next, k);
    }
  }

  lemma CountersKeepNames(s: string, vars: Env, k: string)
    requires k in vars
    ensures k in AfterCounters(s, vars).1
  {
    var (s1, st1) := Scan(INCREMENT, s, State(vars, 0));
    PassKeepsNames("++", 1, s, State(vars, 0), k);
    PassKeepsNames("--", -1, s1, State(st1.vars, 0), k);
  }

  // ---- An operator that the second pass meets stood in the string before the first ----

  predicate DigitFree(w: string) {
    forall i | 0 <= i < |w| :: !IsDigit(w[i])
  }

  /** The text starts like no operator: with a digit, or a sign and a digit. */
  predicate Numeric(t: string) {
    t != "" && (IsDigit(t[0]) || (t[0] == '-' && |t| > 1 && IsDigit(t[1])))
    && forall i | 0 <= i < |t| :: IsDigit(t[i]) || t[i] == '-'
  }

  lemma FormatIntNumeric(n: int)
    ensures Numeric(FormatInt(n))
  {
  }

  /** One step of the pass: a piece of the string is copied, or a number stands for it. */
  lemma PassStep(op: string, delta: int, s: string, st: State) returns (len: nat, text: string, next: State)
    requires s != ""
    ensures 0 < len <= |s| && (text == s[..len] || Numeric(text))
    ensures Scan(Step(op, delta), s, st).0 == text + Scan(Step(op, delta), s[len..], next).0
  {
    match MatchAt(Step(op, delta), s, st)
    case Miss =>
      len, text, next := 1, s[..1], st;
    case Hit(n, t, after) =>
      len, text, next := n, t, after;
      HitText(op, delta, s, st);
  }

  lemma HitText(op: string, delta: int, s: string, st: State)
    requires MatchAt(Step(op, delta), s, st).Hit?
    ensures var h := MatchAt(Step(op, delta), s, st); h.text == s[..h.len] || Numeric(h.text)
  {
    var name := TrimSpace(CallAt(s, |op|).value);
    if Advance(Step(op, delta), name, st).Some? {
      FormatIntNumeric(Wrap64(Counter(st.vars, name).value + delta));
    }
  }

  lemma SameSplit(a: string, b: string, c: string, d: string)
    requires a + b == c + d && |a| <= |c|
    ensures c == a + c[|a|..] && b == c[|a|..] + d
  {
    assert (a + b)[..|a|] == a && (c + d)[..|a|] == c[..|a|];
    assert (a + b)[|a|..] == b && (c + d)[|a|..] == c[|a|..] + d;
  }

  lemma StartsCopied(text: string, rest: string, w: string, b: string, copy: string)
    requires text + rest == w + b && w != "" && DigitFree(w) && w[|w| - 1] != '-'
    requires text == copy || Numeric(text)
    ensures text == copy
  {
    assert text != "" ==> (text + rest)[0] == text[0];
    assert |text| > 1 && |w| > 1 ==> (text + rest)[1] == text[1];
  }

  lemma Glue(a: string, b: string, c: string, ab: string)
    requires ab == a + b
    ensures ab + c == a + (b + c)
  {
  }

  /** A text without digits at the start of the result, not ending in a sign, was at the start. */
  lemma {:induction false} PrefixBack(op: string, delta: int, s: string, st: State, w: string, b: string)
    returns (c: string)
    requires Scan(Step(op, delta), s, st).0 == w + b && DigitFree(w) && (w == "" || w[|w| - 1] != '-')
    ensures s == w + c
    decreases |s|, 0
  {
    if w == "" {
      c := s;
      assert s == "" + s;
    } else {
      var len, text, next := PassStep(op, delta, s, st);
      StartsCopied(text, Scan(Step(op, delta), s[len..], next).0, w, b, s[..len]);
      c := PieceBack(op, delta, s[len..], next, text, w, b);
      assert s == text + s[len..];
    }
  }

  /** The same when a piece was copied before. */
  lemma {:induction false} PieceBack(op: string, delta: int, tail: string, st: State, piece: string, w: string,
                                     b: string)
    returns (c: string)
    requires piece + Scan(Step(op, delta), tail, st).0 == w + b && DigitFree(w) && (w == "" || w[|w| - 1] != '-')
    ensures piece + tail == w + c
    decreases |tail|, 1
  {
    var rest := Scan(Step(op, delta), tail, st).0;
    if |w| <= |piece| {
      SameSplit(w, b, piece, rest);
      c := piece[|w|..] + tail;
      Glue(w, piece[|w|..], tail, piece);
    } else {
      SameSplit(piece, rest, w, b);
      var more := w[|piece|..];
      c := PrefixBack(op, delta, tail, st, more, b);
      Glue(piece, more, c, w);
    }
  }

  /** Not empty, without digits, from a brace to a brace. */
  predicate Braced(w: string) {
    w != "" && DigitFree(w) && w[0] == '{' && w[|w| - 1] == '}'
  }

  lemma StartsInCopy(a: string, w: string, b: string, text: string, rest: string, copy: string)
    requires text + rest == a + (w + b) && |a| < |text| && Braced(w) && (text == copy || Numeric(text))
    ensures text == copy
  {
    assert (text + rest)[|a|] == text[|a|] && (a + (w + b))[|a|] == w[0];
  }

  /** The same anywhere in the result: a text that starts with a brace was in the string. */
  lemma {:induction false} WithinBack(op: string, delta: int, s: string, st: State, a: string, w: string, b: string)
    requires Scan(Step(op, delta), s, st).0 == a + (w + b) && Braced(w)
    ensures Within(w, s)
    decreases |s|
  {
    if s != "" {
      var len, text, next := PassStep(op, delta, s, st);
      var rest := Scan(Step(op, delta), s[len..], next).0;
      if |text| <= |a| {
        SameSplit(text, rest, a, w + b);
        WithinBack(op, delta, s[len..], next, a[|text|..], w, b);
        LaterWithin(w, s, len);
      } else {
        SameSplit(a, w + b, text, rest);
        StartsInCopy(a, w, b, text, rest, s[..len]);
        var c := PieceBack(op, delta, s[len..], next, text[|a|..], w, b);
        assert s == text + s[len..] == a + text[|a|..] + s[len..];
        Rejoin(s, a, text[|a|..], s[len..], w, c);
      }
    }
  }

  lemma Rejoin(s: string, a: string, piece: string, tail: string, w: string, c: string)
    requires s == a + piece + tail && piece + tail == w + c
    ensures Within(w, s)
  {
    assert s == a + (piece + tail) == a + w + c;
  }

  lemma BlankDigitFree(w: string)
    requires Blank(w)
    ensures DigitFree(w)
  {
    forall c | c in SPACES ensures !IsDigit(c) { IsSpaceExactly(c); }
  }

  lemma OperandDigitFree(op: string, raw: string, k: string)
    requires Around(raw, k) && DigitFree(k) && DigitFree(op)
    ensures Braced(OpText(op, raw))
  {
    var pre, post :| Blank(pre) && Blank(post) && raw == pre + k + post;
    BlankDigitFree(pre);
    BlankDigitFree(post);
    assert DigitFree(raw);
    JoinDigitFree("{{" + op, "(" + raw);
    JoinDigitFree("{{" + op + ("(" + raw), ")}}");
    assert OpText(op, raw) == ("{{" + op + ("(" + raw)) + ")}}";
  }

  lemma JoinDigitFree(a: string, b: string)
    requires DigitFree(a) && DigitFree(b)
    ensures DigitFree(a + b)
  {
  }

  lemma StoodBefore(op: string, delta: int, s: string, st: State, w: string)
    requires Within(w, Scan(Step(op, delta), s, st).0) && Braced(w)
    ensures Within(w, s)
  {
    var out := Scan(Step(op, delta), s, st).0;
    var a, b :| out == a + w + b;
    assert out == a + (w + b);
    WithinBack(op, delta, s, st, a, w, b);
  }

  lemma CountedBefore(op: string, delta: int, s: string, st: State, op2: string, k: string)
    requires Counts(op2, k, Scan(Step(op, delta), s, st).0) && DigitFree(k) && DigitFree(op2)
    ensures Counts(op2, k, s)
  {
    var s1 := Scan(Step(op, delta), s, st).0;
    var raw :| ')' !in raw && Around(raw, k) && Within(OpText(op2, raw), s1);
    OperandDigitFree(op2, raw, k);
    StoodBefore(op, delta, s, st, OpText(op2, raw));
  }

  /** Both passes over any string: a variable whose name has no digit keeps its text, or an operator
      of the string itself names it and it holds an integer. */
  lemma CountersWriteCounted(s: string, vars: Env, k: string)
    requires DigitFree(k)
    ensures var after := AfterCounters(s, vars).1;
            Same(vars, after, k) || ((Counts("++", k, s) || Counts("--", k, s)) && HoldsInteger(after, k))
  {
    var st := State(vars, 0);
    var (s1, st1) := Scan(INCREMENT, s, st);
    PassWritesCounted("++", 1, s, st, k);
    PassWritesCounted("--", -1, s1, State(st1.vars, 0), k);
    if Counts("--", k, s1) { CountedBefore("++", 1, s, st, "--", k); }
  }
}
