/** flattenMap: the flat index of a JSON object answers every lookup as navigation would. */
module FlatIndex {
  import opened Text
  import opened TextLaws

  /** Leaf stands for every value printed with %v that is neither object nor array. */
  datatype Json = Leaf(id: int) | Object(fields: map<string, Json>) | Array(items: seq<Json>)

  /** How the library lowers a character and prints a value with %v. */
  datatype Printer = Printer(lower: char -> char, show: Json -> string) {
    function Lower(s: string): (r: string)
      ensures |r| == |s|
    {
      seq(|s|, i requires 0 <= i < |s| => lower(s[i]))
    }
  }

  /** Keys are non-empty, free of dots, and different from their siblings after lowercasing. */
  predicate WellFormedFields(p: Printer, m: map<string, Json>) {
    && (forall k <- m :: k != "" && '.' !in p.Lower(k))
    && (forall k, l | k in m && l in m && p.Lower(k) == p.Lower(l) :: k == l)
  }

  predicate WellFormedJson(p: Printer, j: Json) {
    match j
    case Leaf(_) => true
    case Object(m) => WellFormedFields(p, m) && forall k <- m :: WellFormedJson(p, m[k])
    case Array(a) => forall i | 0 <= i < |a| :: WellFormedJson(p, a[i])
  }

  // ---- Navigation ----

  /** The first component of a dotted query, and what follows its dot. */
  function Head(q: string): string {
    q[..Find(q, '.')]
  }

  function Tail(q: string): Option<string> {
    var i := Find(q, '.');
    if i < |q| then Some(q[i + 1..]) else None
  }

  /** Component by component from the root of an object. */
  ghost function Navigate(p: Printer, m: map<string, Json>, q: string): Option<string>
    decreases Object(m), 0
  {
    if k :| k in m && p.Lower(k) == Head(q) then Inside(p, m[k], Tail(q)) else None
  }

  /** What a value answers to the rest of a query. */
  ghost function Inside(p: Printer, v: Json, rest: Option<string>): Option<string>
    decreases v, 1
  {
    match v
    case Leaf(_) => if rest == None then Some(p.show(v)) else None
    case Object(m) => if rest == None then None else Navigate(p, m, rest.value)
    case Array(a) =>
      if rest == None then None
      else Items(p, a, |a|, rest.value)
  }

  /** The length of an array, and its first n elements. */
  ghost function Items(p: Printer, a: seq<Json>, n: nat, r: string): Option<string>
    requires n <= |a|
    decreases Array(a), 0
  {
    if r == "__len__" then Some(FormatNat(|a|))
    else if i: nat :| i < n && FormatNat(i) == Head(r) then Element(p, a[i], Tail(r))
    else None
  }

  /** An array element: an object goes on, anything else, even an array, is one printed leaf. */
  ghost function Element(p: Printer, e: Json, rest: Option<string>): Option<string>
    decreases e, 3
  {
    match e
    case Object(m) => if rest == None then None else Navigate(p, m, rest.value)
    case _ => if rest == None then Some(p.show(e)) else None
  }

  // ---- Lookups in the flat index ----

  function Get(m: map<string, string>, q: string): Option<string> {
    if q in m then Some(m[q]) else None
  }

  /** q with the prefix and its dot taken off; the empty prefix of the root has no dot. */
  function Strip(prefix: string, q: string): Option<string> {
    if prefix == "" then Some(q)
    else if HasPrefix(q, prefix + ".") then Some(q[|prefix| + 1..])
    else None
  }

  function Join(prefix: string, key: string): string {
    if prefix == "" then key else prefix + "." + key
  }

  /** What the index must answer below a prefix. */
  ghost function Expected(p: Printer, prefix: string, m: map<string, Json>, q: string): Option<string> {
    match Strip(prefix, q) case None => None case Some(r) => Navigate(p, m, r)
  }

  /** What the entries of one value stored under a full key answer. */
  ghost function Entry(p: Printer, key: string, v: Json, q: string): Option<string>
    requires key != ""
  {
    if q == key then Inside(p, v, None)
    else match Strip(key, q) case None => None case Some(r) => Inside(p, v, Some(r))
  }

  lemma HeadTail(q: string, key: string)
    requires '.' !in key
    ensures Head(q) == key <==> q == key || HasPrefix(q, key + ".")
    ensures q == key ==> Tail(q) == None
    ensures HasPrefix(q, key + ".") ==> Tail(q) == Some(q[|key| + 1..])
  {
    if Head(q) == key {
      assert forall i | 0 <= i < |key| :: q[i] == q[..|key|][i];
    }
    if q == key || HasPrefix(q, key + ".") {
      assert q[..|key|] == key;
      if |q| > |key| {
        assert (key + ".")[|key|] == '.';
        FindAt(q, '.', |key|);
      }
    }
  }

  lemma ShorterPrefix(prefix: string, rest: string, q: string)
    requires HasPrefix(q, prefix + rest)
    ensures HasPrefix(q, prefix)
  {
    forall i | 0 <= i < |prefix| ensures q[i] == prefix[i] {
      assert (prefix + rest)[i] == prefix[i];
    }
  }

  lemma StripJoin(prefix: string, key: string, q: string)
    requires key != ""
    ensures q == Join(prefix, key) <==> Strip(prefix, q) == Some(key)
    ensures Strip(Join(prefix, key), q) ==
            match Strip(prefix, q) case None => None case Some(r) => Strip(key, r)
  {
    if prefix != "" {
      var full := prefix + "." + key;
      assert full == (prefix + ".") + key && full + "." == (prefix + ".") + (key + ".");
      if HasPrefix(q, full + ".") { ShorterPrefix(prefix + ".", key + ".", q); }
      if HasPrefix(q, full) { ShorterPrefix(prefix + ".", key, q); }
      if HasPrefix(q, prefix + ".") {
        var r := q[|prefix| + 1..];
        assert forall i | 0 <= i <= |prefix| :: q[i] == (prefix + ".")[i];
        assert q == prefix + "." + r;
        if HasPrefix(r, key + ".") {
          assert forall i | 0 <= i < |key| + 1 :: (key + ".")[i] == (full + ".")[|prefix| + 1 + i];
          assert q[|full| + 1..] == r[|key| + 1..];
        }
        if HasPrefix(q, full + ".") {
          assert forall i | 0 <= i < |key| + 1 :: (key + ".")[i] == (full + ".")[|prefix| + 1 + i] == r[i];
        }
      }
    }
  }

  /** One more field of an object: queries that start with its key go inside, the others do not. */
  lemma NavigateInsert(p: Printer, m: map<string, Json>, k: string, v: Json, q: string)
    requires WellFormedFields(p, m[k := v]) && k !in m
    ensures Navigate(p, m[k := v], q) ==
            if q == p.Lower(k) || HasPrefix(q, p.Lower(k) + ".") then Entry(p, p.Lower(k), v, q) else Navigate(p, m, q)
    ensures Head(q) == p.Lower(k) ==> Navigate(p, m, q) == None
  {
    var m2 := m[k := v];
    HeadTail(q, p.Lower(k));
    assert forall l | l in m :: l in m2 && m2[l] == m[l];
    if Head(q) == p.Lower(k) {
      assert k in m2 && p.Lower(k) == Head(q);
      assert forall l | l in m2 && p.Lower(l) == Head(q) :: l == k;
    } else if l :| l in m && p.Lower(l) == Head(q) {
      assert forall l' | l' in m2 && p.Lower(l') == Head(q) :: l' == l;
      assert forall l' | l' in m && p.Lower(l') == Head(q) :: l' == l;
    }
  }

  lemma ExpectedInsert(p: Printer, prefix: string, m: map<string, Json>, k: string, v: Json, q: string)
    requires WellFormedFields(p, m[k := v]) && k !in m
    ensures var key := Join(prefix, p.Lower(k));
            && key != ""
            && Expected(p, prefix, m[k := v], q) ==
               (if q == key || HasPrefix(q, key + ".") then Entry(p, key, v, q) else Expected(p, prefix, m, q))
            && (q == key || HasPrefix(q, key + ".") ==> Expected(p, prefix, m, q) == None)
  {
    var lk := p.Lower(k);
    assert k in m[k := v];
    assert lk != "";
    StripJoin(prefix, lk, q);
    match Strip(prefix, q)
    case None =>
    case Some(r) =>
      NavigateInsert(p, m, k, v, r);
      HeadTail(r, lk);
  }

  lemma ItemsInsert(p: Printer, a: seq<Json>, n: nat, r: string)
    requires n < |a|
    ensures Items(p, a, n + 1, r) == if Head(r) == FormatNat(n) then Element(p, a[n], Tail(r)) else Items(p, a, n, r)
  {
    if r == "__len__" {
      assert r[0] == '_';
      if Find(r, '.') > 0 { assert Head(r)[0] == '_'; }
    } else {
      forall i: nat | i < n + 1 && FormatNat(i) == Head(r) && Head(r) == FormatNat(n) ensures i == n {
        FormatNatInjective(i, n);
      }
      forall i: nat, j: nat | FormatNat(i) == FormatNat(j) ensures i == j {
        FormatNatInjective(i, j);
      }
    }
  }

  // ---- What paths lead to ----

  /** A field name followed by the rest of a path. */
  function Path(key: string, rest: string): string {
    key + "." + rest
  }

  lemma PathReads(key: string, rest: string)
    requires '.' !in key
    ensures Head(key) == key && Tail(key) == None
    ensures Head(Path(key, rest)) == key && Tail(Path(key, rest)) == Some(rest)
  {
    HeadTail(key, key);
    HeadTail(Path(key, rest), key);
    assert (key + ".")[|key|] == '.' && Path(key, rest)[|key| + 1..] == rest;
  }

  lemma FieldFound(p: Printer, m: map<string, Json>, k: string, q: string)
    requires WellFormedFields(p, m) && k in m && Head(q) == p.Lower(k)
    ensures Navigate(p, m, q) == Inside(p, m[k], Tail(q))
  {
    assert forall l | l in m && p.Lower(l) == Head(q) :: l == k;
  }

  /** The name in the letters of the index. */
  predicate Lowered(p: Printer, k: string, key: string) {
    |key| == |k| && forall i | 0 <= i < |k| :: key[i] == p.lower(k[i])
  }

  lemma LoweredIs(p: Printer, k: string, key: string)
    requires Lowered(p, k, key)
    ensures p.Lower(k) == key
  {
  }

  /** The path of a value that is neither object nor array leads to its text, and no further. */
  lemma LeafPath(p: Printer, m: map<string, Json>, k: string, key: string, rest: string)
    requires WellFormedFields(p, m) && k in m && m[k].Leaf? && Lowered(p, k, key)
    ensures Navigate(p, m, key) == Some(p.show(m[k])) && Navigate(p, m, Path(key, rest)) == None
  {
    LoweredIs(p, k, key);
    PathReads(key, rest);
    FieldFound(p, m, k, key);
    FieldFound(p, m, k, Path(key, rest));
  }

  /** The path of an object leads to its fields. */
  lemma ObjectPath(p: Printer, m: map<string, Json>, k: string, key: string, rest: string)
    requires WellFormedFields(p, m) && k in m && m[k].Object? && Lowered(p, k, key)
    ensures Navigate(p, m, key) == None && Navigate(p, m, Path(key, rest)) == Navigate(p, m[k].fields, rest)
  {
    LoweredIs(p, k, key);
    PathReads(key, rest);
    FieldFound(p, m, k, key);
    FieldFound(p, m, k, Path(key, rest));
  }

  /** The path of an array leads to its length and to its elements, by the decimal texts of their
      indices: an element that is an object is opened, any other, even an array, is one text. */
  lemma ArrayPath(p: Printer, m: map<string, Json>, k: string, key: string, digits: string, i: nat, rest: string)
    requires WellFormedFields(p, m) && k in m && m[k].Array? && Lowered(p, k, key)
    requires i < |m[k].items| && IsDecimalNat(digits, i)
    ensures Navigate(p, m, key) == None
    ensures exists len :: IsDecimalNat(len, |m[k].items|) && Navigate(p, m, Path(key, "__len__")) == Some(len)
    ensures Navigate(p, m, Path(key, digits)) ==
            if m[k].items[i].Object? then None else Some(p.show(m[k].items[i]))
    ensures Navigate(p, m, Path(key, Path(digits, rest))) ==
            if m[k].items[i].Object? then Navigate(p, m[k].items[i].fields, rest) else None
  {
    var a := m[k].items;
    LoweredIs(p, k, key);
    PathReads(key, "");
    FieldFound(p, m, k, key);
    LengthPath(p, m, k);
    FormatNatExactly(digits, i);
    DigitsDotFree(i);
    PathReads(digits, rest);
    PathReads(key, digits);
    PathReads(key, Path(digits, rest));
    FieldFound(p, m, k, Path(key, digits));
    FieldFound(p, m, k, Path(key, Path(digits, rest)));
    ElementFound(p, a, i, digits);
    ElementFound(p, a, i, Path(digits, rest));
  }

  lemma LengthPath(p: Printer, m: map<string, Json>, k: string)
    requires WellFormedFields(p, m) && k in m && m[k].Array?
    ensures exists len ::
              IsDecimalNat(len, |m[k].items|) && Navigate(p, m, Path(p.Lower(k), "__len__")) == Some(len)
  {
    PathReads(p.Lower(k), "__len__");
    FieldFound(p, m, k, Path(p.Lower(k), "__len__"));
    FormatNatExactly(FormatNat(|m[k].items|), |m[k].items|);
  }

  lemma ElementFound(p: Printer, a: seq<Json>, i: nat, r: string)
    requires i < |a| && Head(r) == FormatNat(i)
    ensures Items(p, a, |a|, r) == Element(p, a[i], Tail(r))
  {
    assert r != "__len__" by { assert Head(r)[0] == r[0]; }
    forall j: nat | FormatNat(j) == FormatNat(i) ensures j == i { FormatNatInjective(j, i); }
  }

  /** Below an array there is nothing else. */
  lemma NoSuchElement(p: Printer, m: map<string, Json>, k: string, r: string)
    requires WellFormedFields(p, m) && k in m && m[k].Array?
    requires r != "__len__" && forall i | 0 <= i < |m[k].items| :: !IsDecimalNat(Head(r), i)
    ensures Navigate(p, m, Path(p.Lower(k), r)) == None
  {
    PathReads(p.Lower(k), r);
    FieldFound(p, m, k, Path(p.Lower(k), r));
    forall i: nat | i < |m[k].items| ensures FormatNat(i) != Head(r) { FormatNatExactly(Head(r), i); }
  }

  /** A path that does not start with the name of a field leads nowhere. */
  lemma NoSuchField(p: Printer, m: map<string, Json>, q: string)
    requires WellFormedFields(p, m)
    requires forall k <- m :: q != p.Lower(k) && !HasPrefix(q, Path(p.Lower(k), ""))
    ensures Navigate(p, m, q) == None
  {
    forall k <- m ensures p.Lower(k) != Head(q) {
      HeadTail(q, p.Lower(k));
      assert Path(p.Lower(k), "") == p.Lower(k) + ".";
    }
  }

  lemma DigitsDotFree(n: nat)
    ensures '.' !in FormatNat(n) && FormatNat(n) != ""
  {
  }

  // ---- Any object, well-formed or not ----

  type Pair = (string, string)

  /** The keys that the fields of an object reach, with the values they bring there. */
  function Pairs(p: Printer, prefix: string, m: map<string, Json>): set<Pair>
    decreases Object(m), 1
  {
    set k, e | k in m && e in FieldPairs(p, Join(prefix, p.Lower(k)), m[k]) :: e
  }

  function FieldPairs(p: Printer, key: string, v: Json): set<Pair>
    decreases v, 2
  {
    match v
    case Leaf(_) => {(key, p.show(v))}
    case Object(m) => Pairs(p, key, m)
    case Array(a) => ItemPairs(p, key, a, |a|)
  }

  /** Those of an array: its length, and its first n elements. */
  function ItemPairs(p: Printer, key: string, a: seq<Json>, n: nat): set<Pair>
    requires n <= |a|
    decreases Array(a), 0, n
  {
    if n == 0 then {(key + ".__len__", FormatNat(|a|))}
    else ItemPairs(p, key, a, n - 1) + ElementPairs(p, key + "." + FormatNat(n - 1), a[n - 1])
  }

  function ElementPairs(p: Printer, index: string, e: Json): set<Pair>
    decreases e, 2
  {
    match e
    case Object(m) => Pairs(p, index, m)
    case _ => {(index, p.show(e))}
  }

  /** Every key that is reached has one of the values brought there, and there is no other key. */
  ghost predicate Reaches(flat: map<string, string>, pairs: set<Pair>) {
    && (forall q <- flat :: (q, flat[q]) in pairs)
    && (forall e <- pairs :: e.0 in flat)
  }

  lemma ReachesMore(flat: map<string, string>, pairs: set<Pair>, more: map<string, string>, others: set<Pair>)
    requires Reaches(flat, pairs) && Reaches(more, others)
    ensures Reaches(flat + more, pairs + others)
  {
  }

  lemma PairsInsert(p: Printer, prefix: string, m: map<string, Json>, k: string, v: Json)
    requires k !in m
    ensures Pairs(p, prefix, m[k := v]) == Pairs(p, prefix, m) + FieldPairs(p, Join(prefix, p.Lower(k)), v)
  {
    var m2 := m[k := v];
    var all := Pairs(p, prefix, m) + FieldPairs(p, Join(prefix, p.Lower(k)), v);
    forall e ensures e in Pairs(p, prefix, m2) <==> e in all {
      if e in Pairs(p, prefix, m) {
        var l :| l in m && e in FieldPairs(p, Join(prefix, p.Lower(l)), m[l]);
        assert l in m2 && m2[l] == m[l];
      }
      if e in FieldPairs(p, Join(prefix, p.Lower(k)), v) { assert m2[k] == v; }
    }
  }

  /** If no key is reached with two different values, the index is the same for every order in
      which the maps are iterated. */
  lemma OneIndex(flat: map<string, string>, flat': map<string, string>, pairs: set<Pair>)
    requires Reaches(flat, pairs) && Reaches(flat', pairs)
    requires forall d, e | d in pairs && e in pairs && d.0 == e.0 :: d == e
    ensures flat == flat'
  {
    forall q ensures q in flat <==> q in flat' {
      if q in flat { assert (q, flat[q]).0 == q; }
      if q in flat' { assert (q, flat'[q]).0 == q; }
    }
    forall q <- flat ensures flat[q] == flat'[q] {
      assert (q, flat[q]).0 == (q, flat'[q]).0;
    }
  }

  // ---- The code ----

  /** The entries of an array under a full key. */
  ghost predicate ArrayIndexed(p: Printer, key: string, a: seq<Json>, n: nat, entries: map<string, string>)
    requires n <= |a|
  {
    forall q :: Get(entries, q) == match Strip(key, q) case None => None case Some(r) => Items(p, a, n, r)
  }

  ghost predicate ElementIndexed(p: Printer, index: string, e: Json, more: map<string, string>) {
    if e.Object? then forall q :: Get(more, q) == Expected(p, index, e.fields, q) else more == map[index := p.show(e)]
  }

  lemma ElementAt(p: Printer, key: string, n: nat, e: Json, more: map<string, string>, q: string)
    requires key != "" && ElementIndexed(p, Join(key, FormatNat(n)), e, more)
    ensures Get(more, q) == match Strip(key, q)
            case None => None
            case Some(r) => if Head(r) == FormatNat(n) then Element(p, e, Tail(r)) else None
  {
    var digits := FormatNat(n);
    DigitsDotFree(n);
    StripJoin(key, digits, q);
    match Strip(key, q)
    case None =>
    case Some(r) => HeadTail(r, digits);
  }

  lemma ArrayStep(p: Printer, key: string, a: seq<Json>, n: nat, entries: map<string, string>,
                  more: map<string, string>)
    requires key != "" && n < |a| && ArrayIndexed(p, key, a, n, entries)
    requires ElementIndexed(p, Join(key, FormatNat(n)), a[n], more)
    ensures ArrayIndexed(p, key, a, n + 1, entries + more)
  {
    forall q
      ensures Get(entries + more, q) == match Strip(key, q) case None => None case Some(r) => Items(p, a, n + 1, r)
    {
      ElementAt(p, key, n, a[n], more, q);
      match Strip(key, q)
      case None =>
      case Some(r) =>
        ItemsInsert(p, a, n, r);
        ItemsFresh(p, a, n, r);
    }
  }

  /** No earlier element answers for the next index. */
  lemma ItemsFresh(p: Printer, a: seq<Json>, n: nat, r: string)
    requires n < |a|
    ensures Head(r) == FormatNat(n) ==> Items(p, a, n, r) == None
  {
    if Head(r) == FormatNat(n) {
      forall i: nat | i < n ensures FormatNat(i) != FormatNat(n) {
        if FormatNat(i) == FormatNat(n) { FormatNatInjective(i, n); }
      }
      assert r != "__len__" by {
        if Head(r) != "" { assert Head(r)[0] == r[0]; }
      }
    }
  }

  lemma ArrayStart(p: Printer, key: string, a: seq<Json>, entries: map<string, string>)
    requires key != "" && entries == map[key + ".__len__" := FormatNat(|a|)]
    ensures ArrayIndexed(p, key, a, 0, entries)
  {
    assert key + ".__len__" == Join(key, "__len__");
    forall q ensures Get(entries, q) == match Strip(key, q) case None => None case Some(r) => Items(p, a, 0, r) {
      StripJoin(key, "__len__", q);
    }
  }

  lemma ArrayDone(p: Printer, key: string, a: seq<Json>, entries: map<string, string>)
    requires key != "" && ArrayIndexed(p, key, a, |a|, entries)
    ensures forall q :: Get(entries, q) == Entry(p, key, Array(a), q)
  {
    StripSelf(key);
  }

  /** The entries of the first n elements and of the length. */
  ghost predicate ArrayPart(p: Printer, key: string, a: seq<Json>, n: nat, entries: map<string, string>)
    requires n <= |a|
  {
    && (WellFormedJson(p, Array(a)) && key != "" ==> ArrayIndexed(p, key, a, n, entries))
    && Reaches(entries, ItemPairs(p, key, a, n))
  }

  ghost predicate ElementDone(p: Printer, index: string, e: Json, more: map<string, string>) {
    && (WellFormedJson(p, e) ==> ElementIndexed(p, index, e, more))
    && Reaches(more, ElementPairs(p, index, e))
  }

  ghost predicate FieldDone(p: Printer, key: string, v: Json, more: map<string, string>) {
    && (WellFormedJson(p, v) && key != "" ==> forall q :: Get(more, q) == Entry(p, key, v, q))
    && Reaches(more, FieldPairs(p, key, v))
  }

  lemma ArrayPartStart(p: Printer, key: string, a: seq<Json>, entries: map<string, string>)
    requires entries == map[key + ".__len__" := FormatNat(|a|)]
    ensures ArrayPart(p, key, a, 0, entries)
  {
    OneReached(key + ".__len__", FormatNat(|a|));
    if key != "" { ArrayStart(p, key, a, entries); }
  }

  lemma OneReached(q: string, v: string)
    ensures Reaches(map[q := v], {(q, v)})
  {
  }

  lemma ArrayPartNext(p: Printer, key: string, a: seq<Json>, n: nat, entries: map<string, string>,
                      more: map<string, string>)
    requires n < |a| && ArrayPart(p, key, a, n, entries) && ElementDone(p, key + "." + FormatNat(n), a[n], more)
    ensures ArrayPart(p, key, a, n + 1, entries + more)
  {
    if WellFormedJson(p, Array(a)) && key != "" {
      assert key + "." + FormatNat(n) == Join(key, FormatNat(n));
      ArrayStep(p, key, a, n, entries, more);
    }
    ReachesMore(entries, ItemPairs(p, key, a, n), more, ElementPairs(p, key + "." + FormatNat(n), a[n]));
  }

  lemma ArrayPartAll(p: Printer, key: string, a: seq<Json>, entries: map<string, string>)
    requires ArrayPart(p, key, a, |a|, entries)
    ensures FieldDone(p, key, Array(a), entries)
  {
    if WellFormedJson(p, Array(a)) && key != "" { ArrayDone(p, key, a, entries); }
  }

  /** The length under __len__, and each element that is no object under the text of its index. */
  ghost predicate Numbered(p: Printer, key: string, a: seq<Json>, entries: map<string, string>) {
    && (exists len :: IsDecimalNat(len, |a|) && Get(entries, Path(key, "__len__")) == Some(len))
    && forall i, digits | 0 <= i < |a| && IsDecimalNat(digits, i) && !a[i].Object? ::
         Get(entries, Path(key, digits)) == Some(p.show(a[i]))
  }

  lemma ArrayNumbered(p: Printer, key: string, a: seq<Json>, entries: map<string, string>)
    requires key != "" && ArrayIndexed(p, key, a, |a|, entries)
    ensures Numbered(p, key, a, entries)
  {
    FormatNatExactly(FormatNat(|a|), |a|);
    StripPath(key, "__len__");
    forall i: nat, digits | i < |a| && IsDecimalNat(digits, i) && !a[i].Object?
      ensures Get(entries, Path(key, digits)) == Some(p.show(a[i]))
    {
      FormatNatExactly(digits, i);
      DigitsDotFree(i);
      StripPath(key, digits);
      PathReads(digits, "");
      ElementFound(p, a, i, digits);
    }
  }

  lemma StripPath(key: string, rest: string)
    requires key != "" && rest != ""
    ensures Strip(key, Path(key, rest)) == Some(rest)
  {
    assert Path(key, rest) == Join(key, rest);
    StripJoin(key, rest, Path(key, rest));
  }

  method FlattenArray(p: Printer, key: string, a: seq<Json>) returns (entries: map<string, string>)
    ensures FieldDone(p, key, Array(a), entries)
    ensures WellFormedJson(p, Array(a)) && key != "" ==> Numbered(p, key, a, entries)
    decreases Array(a), 0
  {
    entries := map[key + ".__len__" := FormatNat(|a|)];
    ArrayPartStart(p, key, a, entries);
    for i := 0 to |a|
      invariant ArrayPart(p, key, a, i, entries)
    {
      var more := FlattenElement(p, key + "." + FormatNat(i), a[i]);
      ArrayPartNext(p, key, a, i, entries, more);
      entries := entries + more;
    }
    ArrayPartAll(p, key, a, entries);
    if WellFormedJson(p, Array(a)) && key != "" { ArrayNumbered(p, key, a, entries); }
  }

  method FlattenElement(p: Printer, index: string, e: Json) returns (more: map<string, string>)
    ensures ElementDone(p, index, e, more)
    decreases e, 2
  {
    match e
    case Object(fields) => more := FlattenMap(p, index, fields);
    case _ => more := map[index := p.show(e)];
  }

  lemma StripSelf(key: string)
    ensures key != "" ==> Strip(key, key) == None
  {
  }

  /** Adding the entries of one field to an index of the others. */
  lemma FieldStep(p: Printer, prefix: string, part: map<string, Json>, k: string, v: Json,
                  result: map<string, string>, more: map<string, string>)
    requires k !in part && WellFormedFields(p, part[k := v])
    requires forall q :: Get(result, q) == Expected(p, prefix, part, q)
    requires var key := Join(prefix, p.Lower(k)); key != "" && forall q :: Get(more, q) == Entry(p, key, v, q)
    ensures forall q :: Get(result + more, q) == Expected(p, prefix, part[k := v], q)
  {
    forall q ensures Get(result + more, q) == Expected(p, prefix, part[k := v], q) {
      var key := Join(prefix, p.Lower(k));
      ExpectedInsert(p, prefix, part, k, v, q);
      assert Get(more, q) == Entry(p, key, v, q) && Get(result, q) == Expected(p, prefix, part, q);
      assert Strip(key, q).Some? <==> HasPrefix(q, key + ".");
    }
  }

  /** The entries of some fields of the object m. */
  ghost predicate MapPart(p: Printer, prefix: string, m: map<string, Json>, part: map<string, Json>,
                          result: map<string, string>) {
    && (WellFormedJson(p, Object(m)) ==> forall q :: Get(result, q) == Expected(p, prefix, part, q))
    && Reaches(result, Pairs(p, prefix, part))
  }

  lemma MapPartNext(p: Printer, prefix: string, m: map<string, Json>, part: map<string, Json>, k: string,
                    result: map<string, string>, more: map<string, string>)
    requires MapPart(p, prefix, m, part, result) && k in m && k !in part
             && (forall l <- part :: l in m && part[l] == m[l])
    requires FieldDone(p, Join(prefix, p.Lower(k)), m[k], more)
    ensures MapPart(p, prefix, m, part[k := m[k]], result + more)
  {
    var key := Join(prefix, p.Lower(k));
    if WellFormedJson(p, Object(m)) {
      KeyNotEmpty(p, prefix, m, k);
      FieldStep(p, prefix, part, k, m[k], result, more);
    }
    ReachesMore(result, Pairs(p, prefix, part), more, FieldPairs(p, key, m[k]));
    PairsInsert(p, prefix, part, k, m[k]);
  }

  /** One field of an object under its full key. */
  method FlattenField(p: Printer, key: string, v: Json) returns (more: map<string, string>)
    ensures FieldDone(p, key, v, more)
    decreases v, 2
  {
    match v
    case Object(nested) =>
      more := FlattenMap(p, key, nested);
      if key != "" { StripSelf(key); }
    case Array(a) => more := FlattenArray(p, key, a);
    case Leaf(_) =>
      more := map[key := p.show(v)];
      if key != "" { StripSelf(key); }
  }

  /** flattenMap: the fields come in any order, and later ones overwrite earlier ones. */
  method FlattenMap(p: Printer, prefix: string, m: map<string, Json>) returns (result: map<string, string>)
    ensures WellFormedJson(p, Object(m)) ==> forall q :: Get(result, q) == Expected(p, prefix, m, q)
    ensures Reaches(result, Pairs(p, prefix, m))
    decreases Object(m), 1
  {
    result := map[];
    var left := m.Keys;
    ghost var part: map<string, Json> := map[];
    while left != {}
      invariant left <= m.Keys && part.Keys == m.Keys - left && (forall k <- part :: part[k] == m[k])
      invariant MapPart(p, prefix, m, part, result)
    {
      var k :| k in left;
      left := left - {k};
      var more := FlattenField(p, Join(prefix, p.Lower(k)), m[k]);
      MapPartNext(p, prefix, m, part, k, result, more);
      result := result + more;
      part := part[k := m[k]];
    }
    assert part == m;
  }

  lemma KeyNotEmpty(p: Printer, prefix: string, m: map<string, Json>, k: string)
    requires WellFormedFields(p, m) && k in m
    ensures Join(prefix, p.Lower(k)) != ""
  {
    assert |p.Lower(k)| == |k|;
  }

  /** FlattenJSON and the lookup of an extract path: exactly navigation, for every path. */
  method FlattenJSON(p: Printer, m: map<string, Json>) returns (flat: map<string, string>)
    ensures WellFormedJson(p, Object(m)) ==> forall q :: Get(flat, q) == Navigate(p, m, q)
    ensures Reaches(flat, Pairs(p, "", m))
  {
    flat := FlattenMap(p, "", m);
    if WellFormedJson(p, Object(m)) {
      forall q ensures Get(flat, q) == Navigate(p, m, q) {
        assert Expected(p, "", m, q) == Navigate(p, m, q);
      }
    }
  }
}
