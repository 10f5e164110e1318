/** Listings of the same elements. */
module Sequences {
  lemma MultisetRemove<T>(b: seq<T>, n: nat)
    requires n < |b|
    ensures multiset(b[..n] + b[n + 1..]) == multiset(b) - multiset{b[n]}
  {
    assert b == b[..n] + [b[n]] + b[n + 1..];
  }

  lemma MultisetHead<T>(a: seq<T>)
    requires a != []
    ensures multiset(a[1..]) == multiset(a) - multiset{a[0]}
  {
    assert a == [a[0]] + a[1..];
  }

  /** Where the first of a stands in another listing of the same elements. */
  lemma SameHead<T>(a: seq<T>, b: seq<T>) returns (n: nat)
    requires multiset(a) == multiset(b) && a != []
    ensures n < |b| && b[n] == a[0] && multiset(a[1..]) == multiset(b[..n] + b[n + 1..])
  {
    assert a[0] in multiset(a) && a[0] in multiset(b);
    n :| 0 <= n < |b| && b[n] == a[0];
    MultisetRemove(b, n);
    MultisetHead(a);
  }

  function Mapped<A, B>(f: A -> B, s: seq<A>): seq<B> {
    seq(|s|, n requires 0 <= n < |s| => f(s[n]))
  }

  lemma MappedRemove<A, B>(f: A -> B, b: seq<A>, n: nat)
    requires n < |b|
    ensures multiset(Mapped(f, b)) == multiset(Mapped(f, b[..n] + b[n + 1..])) + multiset{f(b[n])}
  {
    var m := Mapped(f, b);
    MultisetRemove(m, n);
    assert m[n] in multiset(m);
    assert Mapped(f, b[..n] + b[n + 1..]) == m[..n] + m[n + 1..];
  }

  lemma {:induction false} MappedSame<A, B>(f: A -> B, a: seq<A>, b: seq<A>)
    requires multiset(a) == multiset(b)
    ensures multiset(Mapped(f, a)) == multiset(Mapped(f, b))
    decreases |a|
  {
    if a == [] {
      assert |multiset(b)| == 0;
    } else {
      var n := SameHead(a, b);
      MappedSame(f, a[1..], b[..n] + b[n + 1..]);
      assert Mapped(f, a) == [f(a[0])] + Mapped(f, a[1..]);
      MappedRemove(f, b, n);
    }
  }

  /** Every order of the images comes from an order of the elements. */
  lemma {:induction false} MappedInOrder<A, B>(f: A -> B, a: seq<A>, order: seq<B>) returns (sorted: seq<A>)
    requires multiset(order) == multiset(Mapped(f, a))
    ensures multiset(sorted) == multiset(a) && Mapped(f, sorted) == order
    decreases |order|
  {
    if order == [] {
      assert |multiset(Mapped(f, a))| == 0;
      sorted := [];
      assert a == [];
    } else {
      var n := SameHead(order, Mapped(f, a));
      var rest := a[..n] + a[n + 1..];
      assert Mapped(f, rest) == Mapped(f, a)[..n] + Mapped(f, a)[n + 1..];
      var more := MappedInOrder(f, rest, order[1..]);
      MultisetRemove(a, n);
      assert a[n] in multiset(a);
      sorted := [a[n]] + more;
      assert Mapped(f, sorted) == [f(a[n])] + Mapped(f, more);
    }
  }
}
