/** What the texts of numbers mean: decimal notation by the places of its digits, surrounding white
    space, 64-bit wrap-around. */
module TextLaws {
  import opened Text

  // ---- Decimal notation ----

  /** The characters are decimal digits. */
  predicate Digits(s: string) {
    forall i | 0 <= i < |s| :: '0' <= s[i] <= '9'
  }

  function Power10(n: nat): nat {
    if n == 0 then 1 else 10 * Power10(n - 1)
  }

  /** A digit with n digits behind it. */
  function Weighted(c: char, n: nat): nat
    requires '0' <= c <= '9'
  {
    (c as int - '0' as int) * Power10(n)
  }

  /** Each digit counts by its place. */
  function Value(s: string): nat
    requires Digits(s)
  {
    if s == "" then 0 else Weighted(s[0], |s| - 1) + Value(s[1..])
  }

  /** s is the one decimal text of n: its digits, without a leading zero. */
  predicate IsDecimalNat(s: string, n: nat) {
    s != "" && Digits(s) && Value(s) == n && (s == "0" || s[0] != '0')
  }

  /** The same with a minus sign exactly for negative numbers. */
  predicate IsDecimal(s: string, n: int) {
    if n < 0 then s != "" && s[0] == '-' && IsDecimalNat(s[1..], -n) else IsDecimalNat(s, n)
  }

  lemma WeightedNext(c: char, n: nat)
    requires '0' <= c <= '9'
    ensures Weighted(c, n + 1) == 10 * Weighted(c, n)
  {
    Shift(c as int - '0' as int, Power10(n));
  }

  lemma Shift(d: nat, p: nat)
    ensures d * (10 * p) == 10 * (d * p)
  {
  }

  /** One more digit on the right. */
  lemma {:induction false} ValueAppend(s: string, c: char)
    requires Digits(s) && '0' <= c <= '9'
    ensures Digits(s + [c]) && Value(s + [c]) == 10 * Value(s) + (c as int - '0' as int)
  {
    var last := c as int - '0' as int;
    if s == "" {
      assert Value([c]) == Weighted(c, 0) + Value("") && Power10(0) == 1;
    } else {
      assert (s + [c])[1..] == s[1..] + [c];
      ValueAppend(s[1..], c);
      WeightedNext(s[0], |s| - 1);
    }
  }

  /** Only digits are read, all of them, each at its place. */
  lemma {:induction false} ParseNatExactly(s: string)
    ensures ParseNat(s) == if s != "" && Digits(s) then Some(Value(s)) else None
  {
    if s != "" {
      var init, c := s[..|s| - 1], s[|s| - 1];
      assert s == init + [c];
      ParseNatExactly(init);
      if Digits(init) && IsDigit(c) { ValueAppend(init, c); }
    }
  }

  lemma {:induction false} PowerPositive(n: nat)
    ensures Power10(n) > 0
  {
    if n > 0 { PowerPositive(n - 1); }
  }

  lemma LeadingDigit(s: string)
    requires s != "" && Digits(s) && s[0] != '0'
    ensures Value(s) > 0
  {
    PowerPositive(|s| - 1);
    Product(s[0] as int - '0' as int, Power10(|s| - 1));
  }

  lemma Product(d: nat, p: nat)
    requires d > 0 && p > 0
    ensures d * p > 0
  {
  }

  lemma ZeroText()
    ensures Value("0") == 0
  {
    assert Value("0") == Weighted('0', 0) + Value("");
  }

  lemma {:induction false} FormatNatIsDecimal(n: nat)
    ensures IsDecimalNat(FormatNat(n), n)
  {
    if n < 10 {
      ValueAppend("", '0' + n as char);
      assert "" + FormatNat(n) == FormatNat(n);
    } else {
      FormatNatIsDecimal(n / 10);
      ZeroText();
      ValueAppend(FormatNat(n / 10), '0' + (n % 10) as char);
    }
  }

  /** There is no other text of the number. */
  lemma {:induction false} DecimalNatUnique(s: string, n: nat)
    requires IsDecimalNat(s, n)
    ensures s == FormatNat(n)
  {
    var init, c := s[..|s| - 1], s[|s| - 1];
    assert s == init + [c];
    ValueAppend(init, c);
    if init != "" {
      LeadingDigit(init);
      DecimalNatUnique(init, Value(init));
      LastDigit(init, c, n);
    }
  }

  lemma LastDigit(init: string, c: char, n: nat)
    requires Digits(init) && Value(init) > 0 && '0' <= c <= '9' && n == 10 * Value(init) + (c as int - '0' as int)
    requires init == FormatNat(Value(init))
    ensures FormatNat(n) == init + [c]
  {
  }

  /** What is printed is the decimal text of the number, and no other text is. */
  lemma FormatNatExactly(s: string, n: nat)
    ensures s == FormatNat(n) <==> IsDecimalNat(s, n)
  {
    FormatNatIsDecimal(n);
    if IsDecimalNat(s, n) { DecimalNatUnique(s, n); }
  }

  lemma FormatIntExactly(s: string, n: int)
    ensures s == FormatInt(n) <==> IsDecimal(s, n)
  {
    if n < 0 {
      FormatNatExactly(FormatNat(-n), -n);
      assert FormatInt(n)[1..] == FormatNat(-n);
      if IsDecimal(s, n) {
        FormatNatExactly(s[1..], -n);
        assert s == "-" + s[1..];
      }
    } else {
      FormatNatExactly(s, n);
    }
  }

  /** Canonical: of all the texts that read as n, the one without a leading zero is printed. */
  lemma PrintedExactly(s: string, n: nat)
    ensures s == FormatNat(n) <==> ParseNat(s) == Some(n) && (s == "0" || s[0] != '0')
  {
    ParseNatExactly(s);
    FormatNatExactly(s, n);
  }

  // ---- Reading signed numbers ----

  /** An optional sign and digits, within 64 bits. */
  predicate Literal(s: string, v: int) {
    && s != ""
    && -9_223_372_036_854_775_808 <= v <= 9_223_372_036_854_775_807
    && var digits := if s[0] == '+' || s[0] == '-' then s[1..] else s;
       digits != "" && Digits(digits) && v == if s[0] == '-' then -(Value(digits) as int) else Value(digits)
  }

  lemma ParseIntExactly(s: string, v: int)
    ensures ParseInt(s) == Some(v) <==> Literal(s, v)
  {
    if s != "" { ParseNatExactly(if s[0] == '+' || s[0] == '-' then s[1..] else s); }
  }

  // ---- White space ----

  /** The white space of Unicode. */
  const SPACES := "\t\n\U{B}\U{C}\r \U{85}\U{A0}\U{1680}\U{2000}\U{2001}\U{2002}\U{2003}\U{2004}\U{2005}\U{2006}"
                  + "\U{2007}\U{2008}\U{2009}\U{200A}\U{2028}\U{2029}\U{202F}\U{205F}\U{3000}"

  lemma IsSpaceExactly(c: char)
    ensures IsSpace(c) <==> c in SPACES
  {
  }

  predicate Blank(s: string) {
    forall i | 0 <= i < |s| :: s[i] in SPACES
  }

  /** No white space around. */
  predicate Bare(s: string) {
    s == "" || (s[0] !in SPACES && s[|s| - 1] !in SPACES)
  }

  /** s is t with white space around. */
  ghost predicate Around(s: string, t: string) {
    Bare(t) && exists pre, post :: Blank(pre) && Blank(post) && s == pre + t + post
  }

  predicate AllSpace(s: string) {
    forall i | 0 <= i < |s| :: IsSpace(s[i])
  }

  lemma {:induction false} TrimLeftCuts(s: string, t: string) returns (pre: string)
    requires t == TrimLeft(s)
    ensures s == pre + t && AllSpace(pre) && (t == "" || !IsSpace(t[0]))
  {
    if s != "" && IsSpace(s[0]) {
      var more := TrimLeftCuts(s[1..], t);
      pre := s[..1] + more;
    } else {
      pre := "";
    }
  }

  lemma {:induction false} TrimRightCuts(s: string, t: string) returns (post: string)
    requires t == TrimRight(s)
    ensures s == t + post && AllSpace(post) && (t == "" || !IsSpace(t[|t| - 1]))
  {
    if s != "" && IsSpace(s[|s| - 1]) {
      var init, last := s[..|s| - 1], s[|s| - 1];
      var more := TrimRightCuts(init, t);
      post := more + [last];
      assert s == init + [last] == t + post;
    } else {
      post := "";
    }
  }

  lemma {:induction false} TrimLeftBlank(pre: string, rest: string)
    requires AllSpace(pre) && (rest == "" || !IsSpace(rest[0]))
    ensures TrimLeft(pre + rest) == rest
  {
    if pre == "" {
      assert pre + rest == rest;
    } else {
      assert (pre + rest)[1..] == pre[1..] + rest;
      TrimLeftBlank(pre[1..], rest);
    }
  }

  lemma {:induction false} TrimRightBlank(rest: string, post: string)
    requires AllSpace(post) && (rest == "" || !IsSpace(rest[|rest| - 1]))
    ensures TrimRight(rest + post) == rest
  {
    if post == "" {
      assert rest + post == rest;
    } else {
      var init := post[..|post| - 1];
      assert (rest + post)[..|rest + post| - 1] == rest + init && (rest + post)[|rest + post| - 1] == post[|post| - 1];
      TrimRightBlank(rest, init);
    }
  }

  /** What trimming cuts off. */
  ghost predicate Cut(s: string, pre: string, t: string, post: string) {
    && s == pre + t + post && AllSpace(pre) && AllSpace(post)
    && (t == "" || (!IsSpace(t[0]) && !IsSpace(t[|t| - 1])))
  }

  lemma TrimCuts(s: string, t: string) returns (pre: string, post: string)
    requires t == TrimSpace(s)
    ensures Cut(s, pre, t, post)
  {
    var mid := TrimLeft(s);
    pre := TrimLeftCuts(s, mid);
    post := TrimRightCuts(mid, t);
    assert t != "" ==> mid[0] == t[0];
    assert s == pre + (t + post) == pre + t + post;
  }

  lemma CutsTrim(s: string, pre: string, t: string, post: string)
    requires Cut(s, pre, t, post)
    ensures TrimSpace(s) == t
  {
    if t == "" {
      assert s == (pre + post) + "";
      TrimLeftBlank(pre + post, "");
    } else {
      assert s == pre + (t + post);
      TrimLeftBlank(pre, t + post);
      TrimRightBlank(t, post);
    }
  }

  /** Trimming takes off all the white space around, and nothing else. */
  lemma TrimSpaceExactly(s: string, t: string)
    ensures TrimSpace(s) == t <==> Around(s, t)
  {
    forall c ensures IsSpace(c) <==> c in SPACES { IsSpaceExactly(c); }
    if TrimSpace(s) == t {
      var pre, post := TrimCuts(s, t);
      assert Blank(pre) && Blank(post);
    }
    if Around(s, t) {
      var pre, post :| Blank(pre) && Blank(post) && s == pre + t + post;
      CutsTrim(s, pre, t, post);
    }
  }

  /** A literal with any white space around. */
  ghost predicate Reads(s: string, v: int) {
    exists t :: Around(s, t) && Literal(t, v)
  }

  lemma ParseVarIntExactly(s: string, v: int)
    ensures ParseVarInt(s) == Some(v) <==> Reads(s, v)
  {
    TrimSpaceExactly(s, TrimSpace(s));
    ParseIntExactly(TrimSpace(s), v);
    forall t | Around(s, t) ensures t == TrimSpace(s) { TrimSpaceExactly(s, t); }
  }

  // ---- Wrap-around ----

  lemma {:induction false} WrapShifts(n: int) returns (k: int)
    ensures n == Wrap64(n) + k * 18_446_744_073_709_551_616
    decreases if InInt64(n) then 0 else if n < 0 then -n else n
  {
    if n > MAX_INT64 {
      k := WrapShifts(n - TWO_TO_64);
      k := k + 1;
    } else if n < MIN_INT64 {
      k := WrapShifts(n + TWO_TO_64);
      k := k - 1;
    } else {
      k := 0;
    }
  }

  /** The 64-bit number that differs by a multiple of 2^64. */
  lemma WrapExactly(n: int, r: int)
    ensures Wrap64(n) == r <==>
            && -9_223_372_036_854_775_808 <= r <= 9_223_372_036_854_775_807
            && exists k :: n == r + k * 18_446_744_073_709_551_616
  {
    var k := WrapShifts(n);
  }
}
