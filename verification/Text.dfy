/** Strings and 64-bit decimal integers, as the template engine uses them. */
module Text {
  /** The variables of a run. */
  type Env = map<string, string>

  datatype Option<+T> = None | Some(value: T)

  const MIN_INT64: int := -0x8000_0000_0000_0000
  const MAX_INT64: int := 0x7FFF_FFFF_FFFF_FFFF

  predicate InInt64(n: int) {
    MIN_INT64 <= n <= MAX_INT64
  }

  const TWO_TO_64: int := 0x1_0000_0000_0000_0000

  /** Two's complement wrap-around of a 64-bit addition. */
  function Wrap64(n: int): (r: int)
    ensures InInt64(r)
    decreases if InInt64(n) then 0 else if n < 0 then -n else n
  {
    if n > MAX_INT64 then Wrap64(n - TWO_TO_64)
    else if n < MIN_INT64 then Wrap64(n + TWO_TO_64)
    else n
  }

  lemma WrapPeriod(n: int)
    ensures Wrap64(n + TWO_TO_64) == Wrap64(n)
  {
  }

  /** Wrapping early or late makes no difference. */
  lemma {:induction false} WrapAdd(a: int, b: int)
    ensures Wrap64(Wrap64(a) + b) == Wrap64(a + b)
    decreases if InInt64(a) then 0 else if a < 0 then -a else a
  {
    if a > MAX_INT64 {
      WrapAdd(a - TWO_TO_64, b);
      WrapPeriod(a - TWO_TO_64 + b);
    } else if a < MIN_INT64 {
      WrapAdd(a + TWO_TO_64, b);
      WrapPeriod(a + b);
    }
  }

  predicate HasPrefix(s: string, p: string) {
    |p| <= |s| && forall i | 0 <= i < |p| :: s[i] == p[i]
  }

  /** The index of the first c in s, or the length of s. */
  function Find(s: string, c: char): (i: nat)
    ensures i <= |s| && c !in s[..i]
    ensures i < |s| ==> s[i] == c
  {
    if s == "" || s[0] == c then 0 else
      assert s[1..][..Find(s[1..], c)] == s[..1 + Find(s[1..], c)][1..];
      1 + Find(s[1..], c)
  }

  lemma FindAt(s: string, c: char, i: nat)
    requires i < |s| && s[i] == c && c !in s[..i]
    ensures Find(s, c) == i
  {
    assert forall k | 0 <= k < i :: s[k] == s[..i][k];
    assert forall k | 0 <= k < Find(s, c) :: s[k] == s[..Find(s, c)][k];
  }

  /** unicode.IsSpace, the characters strings.TrimSpace removes. */
  predicate IsSpace(c: char) {
    var n := c as int;
    9 <= n <= 13 || n == 0x20 || n == 0x85 || n == 0xA0 || n == 0x1680 || 0x2000 <= n <= 0x200A
    || n == 0x2028 || n == 0x2029 || n == 0x202F || n == 0x205F || n == 0x3000
  }

  function TrimLeft(s: string): string {
    if s != "" && IsSpace(s[0]) then TrimLeft(s[1..]) else s
  }

  function TrimRight(s: string): string {
    if s != "" && IsSpace(s[|s| - 1]) then TrimRight(s[..|s| - 1]) else s
  }

  function TrimSpace(s: string): string {
    TrimRight(TrimLeft(s))
  }

  lemma TrimKeeps(s: string, c: char)
    ensures c in TrimLeft(s) ==> c in s
    ensures c in TrimRight(s) ==> c in s
  {
    if s != "" {
      if IsSpace(s[0]) { TrimKeeps(s[1..], c); }
      if IsSpace(s[|s| - 1]) { TrimKeeps(s[..|s| - 1], c); }
    }
  }

  predicate IsDigit(c: char) {
    '0' <= c <= '9'
  }

  function FormatNat(n: nat): (s: string)
    ensures s != "" && forall i | 0 <= i < |s| :: IsDigit(s[i])
  {
    var d := '0' + (n % 10) as char;
    if n < 10 then [d] else FormatNat(n / 10) + [d]
  }

  /** strconv.FormatInt in base 10. */
  function FormatInt(n: int): (s: string)
    ensures s != "" && forall i | 0 <= i < |s| :: IsDigit(s[i]) || s[i] == '-'
  {
    if n < 0 then "-" + FormatNat(-n) else FormatNat(n)
  }

  function ParseNat(s: string): Option<nat> {
    if s == "" || !IsDigit(s[|s| - 1]) then None
    else
      var d := (s[|s| - 1] - '0') as nat;
      if |s| == 1 then Some(d)
      else match ParseNat(s[..|s| - 1])
        case None => None
        case Some(q) => Some(10 * q + d)
  }

  /** strconv.ParseInt in base 10 with 64 bits: optional sign, digits, range check. */
  function ParseInt(s: string): (r: Option<int>)
    ensures r.Some? ==> InInt64(r.value)
  {
    var signed := s != "" && (s[0] == '-' || s[0] == '+');
    match ParseNat(if signed then s[1..] else s)
    case None => None
    case Some(n) =>
      var v: int := if signed && s[0] == '-' then -(n as int) else n;
      if InInt64(v) then Some(v) else None
  }

  /** parseVarInt: surrounding space is ignored. */
  function ParseVarInt(s: string): (r: Option<int>)
    ensures r.Some? ==> InInt64(r.value)
  {
    ParseInt(TrimSpace(s))
  }

  lemma {:induction false} ParseFormatNat(n: nat)
    ensures ParseNat(FormatNat(n)) == Some(n)
  {
    if n >= 10 {
      ParseFormatNat(n / 10);
      var s := FormatNat(n);
      assert s[..|s| - 1] == FormatNat(n / 10);
    }
  }

  /** The decimal round trip the counters rely on. */
  lemma {:induction false} ParseFormatInt(n: int)
    requires InInt64(n)
    ensures ParseVarInt(FormatInt(n)) == Some(n)
  {
    var s := FormatInt(n);
    ParseFormatNat(if n < 0 then -n else n);
    if n < 0 {
      assert s[1..] == FormatNat(-n);
    }
    assert !IsSpace(s[0]) && !IsSpace(s[|s| - 1]);
  }

  /** Distinct numbers print differently. */
  lemma FormatNatInjective(a: nat, b: nat)
    requires FormatNat(a) == FormatNat(b)
    ensures a == b
  {
    ParseFormatNat(a);
    ParseFormatNat(b);
  }
}
