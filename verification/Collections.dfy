/** Sequence helpers shared by every table scan of the model: filtering, counting, summing,
    and the facts that they do not depend on the order of the rows. */
module Collections {
  datatype Option<+T> = None | Some(value: T) {
    function GetOr(default: T): T {
      if None? then default else value
    }
  }

  function Filter<T>(s: seq<T>, p: T -> bool): (r: seq<T>)
    ensures |r| <= |s|
  {
    if s == [] then []
    else if p(s[0]) then [s[0]] + Filter(s[1..], p)
    else Filter(s[1..], p)
  }

  lemma FilterMembers<T(!new)>(s: seq<T>, p: T -> bool)
    ensures forall x :: x in Filter(s, p) <==> x in s && p(x)
  {
    if s != [] {
      FilterMembers(s[1..], p);
      assert s == [s[0]] + s[1..];
    }
  }

  function CountIf<T>(s: seq<T>, p: T -> bool): (n: nat)
    ensures n == |Filter(s, p)|
  {
    if s == [] then 0 else (if p(s[0]) then 1 else 0) + CountIf(s[1..], p)
  }

  function Sum<T>(s: seq<T>, f: T -> int): int {
    if s == [] then 0 else f(s[0]) + Sum(s[1..], f)
  }

  function Map<T, U>(s: seq<T>, f: T -> U): (r: seq<U>)
    ensures |r| == |s|
    ensures forall i :: 0 <= i < |s| ==> r[i] == f(s[i])
  {
    seq(|s|, i requires 0 <= i < |s| => f(s[i]))
  }

  function Maximum(xs: seq<nat>): (m: nat)
    ensures forall x :: x in xs ==> x <= m
    ensures xs != [] ==> m in xs
  {
    if xs == [] then 0
    else
      var rest := Maximum(xs[1..]);
      assert xs == [xs[0]] + xs[1..];
      if xs[0] < rest then rest else xs[0]
  }

  /** The maximum is a property of the values, not of their order. */
  lemma MaximumSameValues(xs: seq<nat>, ys: seq<nat>)
    requires forall x :: x in xs <==> x in ys
    ensures Maximum(xs) == Maximum(ys)
  {
    if xs == [] {
      assert Maximum(ys) in ys <==> Maximum(ys) in xs;
    } else {
      assert xs[0] in ys;
      assert Maximum(xs) in ys && Maximum(ys) in xs;
    }
  }

  lemma Regroup<T>(a: seq<T>, b: seq<T>, c: seq<T>)
    ensures a + (b + c) == (a + b) + c
  {
  }

  lemma {:induction false} FilterParts<T>(s: seq<T>, t: seq<T>, p: T -> bool)
    ensures Filter(s + t, p) == Filter(s, p) + Filter(t, p)
  {
    if s == [] {
      assert s + t == t;
    } else {
      FilterParts(s[1..], t, p);
      assert (s + t)[0] == s[0] && (s + t)[1..] == s[1..] + t;
      Regroup([s[0]], Filter(s[1..], p), Filter(t, p));
    }
  }

  lemma FilterAppend<T>(s: seq<T>, t: seq<T>, p: T -> bool)
    ensures Filter(s + t, p) == Filter(s, p) + Filter(t, p)
    ensures CountIf(s + t, p) == CountIf(s, p) + CountIf(t, p)
  {
    FilterParts(s, t, p);
  }

  lemma SumAppend<T>(s: seq<T>, t: seq<T>, f: T -> int)
    ensures Sum(s + t, f) == Sum(s, f) + Sum(t, f)
  {
    if s == [] {
      assert s + t == t;
    } else {
      SumAppend(s[1..], t, f);
      assert (s + t)[1..] == s[1..] + t;
    }
  }

  lemma FilterSame<T>(s: seq<T>, p: T -> bool, q: T -> bool)
    requires forall x :: x in s ==> (p(x) <==> q(x))
    ensures Filter(s, p) == Filter(s, q)
    ensures CountIf(s, p) == CountIf(s, q)
  {
    if s != [] {
      assert s == [s[0]] + s[1..];
      FilterSame(s[1..], p, q);
    }
  }

  lemma FilterAll<T>(s: seq<T>, p: T -> bool)
    requires forall x :: x in s ==> p(x)
    ensures Filter(s, p) == s
  {
    if s != [] {
      assert s == [s[0]] + s[1..];
      FilterAll(s[1..], p);
    }
  }

  lemma {:induction false} FilterMapped<T, U>(s: seq<T>, f: T -> U, p: U -> bool, q: T -> bool)
    requires forall x :: x in s ==> (p(f(x)) <==> q(x))
    ensures Filter(Map(s, f), p) == Map(Filter(s, q), f)
  {
    if s != [] {
      assert s == [s[0]] + s[1..];
      FilterMapped(s[1..], f, p, q);
      assert Map(s, f)[1..] == Map(s[1..], f);
      if q(s[0]) {
        assert Map([s[0]] + Filter(s[1..], q), f) == [f(s[0])] + Map(Filter(s[1..], q), f);
      }
    }
  }

  lemma FilterNone<T>(s: seq<T>, p: T -> bool)
    requires forall i :: 0 <= i < |s| ==> !p(s[i])
    ensures Filter(s, p) == []
  {
  }

  /** Taking one row out of a sequence, wherever it stands. */
  lemma SplitAt<T>(s: seq<T>, x: T) returns (i: nat)
    requires x in s
    ensures i < |s| && s[i] == x
    ensures s == s[..i] + [x] + s[i + 1..]
    ensures multiset(s) == multiset(s[..i] + s[i + 1..]) + multiset{x}
  {
    i :| 0 <= i < |s| && s[i] == x;
    assert s == s[..i] + [x] + s[i + 1..];
    calc {
      multiset(s);
      multiset(s[..i] + [x] + s[i + 1..]);
      multiset(s[..i]) + multiset([x]) + multiset(s[i + 1..]);
      multiset(s[..i] + s[i + 1..]) + multiset{x};
    }
  }

  lemma FilterWithout<T>(a: seq<T>, x: T, b: seq<T>, p: T -> bool)
    ensures multiset(Filter(a + [x] + b, p)) ==
            multiset(Filter(a + b, p)) + (if p(x) then multiset{x} else multiset{})
  {
    FilterAppend(a + [x], b, p);
    FilterAppend(a, [x], p);
    FilterAppend(a, b, p);
    var one := Filter([x], p);
    assert one == if p(x) then [x] else [];
  }

  /** The head of a sequence, wherever it stands in a permutation of it. */
  lemma HeadIn<T>(s: seq<T>, t: seq<T>) returns (i: nat)
    requires multiset(s) == multiset(t) && s != []
    ensures i < |t| && t == t[..i] + [s[0]] + t[i + 1..]
    ensures multiset(s[1..]) == multiset(t[..i] + t[i + 1..])
  {
    assert s == [s[0]] + s[1..];
    assert s[0] in multiset(t);
    i := SplitAt(t, s[0]);
    assert multiset(s[1..]) == multiset(s) - multiset{s[0]};
  }

  lemma {:induction false} FilterPermutes<T>(s: seq<T>, t: seq<T>, p: T -> bool)
    requires multiset(s) == multiset(t)
    ensures multiset(Filter(s, p)) == multiset(Filter(t, p))
    ensures CountIf(s, p) == CountIf(t, p)
    decreases |s|
  {
    if s == [] {
      assert |multiset(t)| == |t|;
    } else {
      var i := HeadIn(s, t);
      FilterPermutes(s[1..], t[..i] + t[i + 1..], p);
      FilterWithout([], s[0], s[1..], p);
      assert s == [] + [s[0]] + s[1..] && [] + s[1..] == s[1..];
      FilterWithout(t[..i], s[0], t[i + 1..], p);
    }
    assert |multiset(Filter(s, p))| == |Filter(s, p)|;
    assert |multiset(Filter(t, p))| == |Filter(t, p)|;
  }

  lemma SumWithout<T>(a: seq<T>, x: T, b: seq<T>, f: T -> int)
    ensures Sum(a + [x] + b, f) == Sum(a + b, f) + f(x)
  {
    SumAppend(a + [x], b, f);
    SumAppend(a, [x], f);
    SumAppend(a, b, f);
  }

  lemma {:induction false} SumPermutes<T>(s: seq<T>, t: seq<T>, f: T -> int)
    requires multiset(s) == multiset(t)
    ensures Sum(s, f) == Sum(t, f)
    decreases |s|
  {
    if s == [] {
      assert |multiset(t)| == |t|;
    } else {
      var i := HeadIn(s, t);
      SumPermutes(s[1..], t[..i] + t[i + 1..], f);
      SumWithout(t[..i], s[0], t[i + 1..], f);
    }
  }

  lemma MapAppend<T, U>(s: seq<T>, t: seq<T>, f: T -> U)
    ensures Map(s + t, f) == Map(s, f) + Map(t, f)
  {
  }

  lemma MapWithout<T, U>(a: seq<T>, x: T, b: seq<T>, f: T -> U)
    ensures multiset(Map(a + [x] + b, f)) == multiset(Map(a + b, f)) + multiset{f(x)}
  {
    MapAppend(a + [x], b, f);
    MapAppend(a, [x], f);
    MapAppend(a, b, f);
    assert Map([x], f) == [f(x)];
  }

  lemma MapHead<T, U>(s: seq<T>, f: T -> U)
    requires s != []
    ensures multiset(Map(s, f)) == multiset(Map(s[1..], f)) + multiset{f(s[0])}
  {
    assert Map(s, f) == [f(s[0])] + Map(s[1..], f);
  }

  lemma {:induction false} MapPermutes<T, U>(s: seq<T>, t: seq<T>, f: T -> U)
    requires multiset(s) == multiset(t)
    ensures multiset(Map(s, f)) == multiset(Map(t, f))
    decreases |s|
  {
    if s == [] {
      assert |multiset(t)| == |t|;
      assert Map(s, f) == Map(t, f);
    } else {
      var i := HeadIn(s, t);
      MapPermutes(s[1..], t[..i] + t[i + 1..], f);
      MapHead(s, f);
      MapWithout(t[..i], s[0], t[i + 1..], f);
    }
  }

  lemma SameRows<T>(s: seq<T>, t: seq<T>)
    requires multiset(s) == multiset(t)
    ensures |s| == |t|
    ensures forall x :: x in s <==> x in t
  {
    assert |multiset(s)| == |s| && |multiset(t)| == |t|;
    forall x ensures x in s <==> x in t {
      assert x in multiset(s) <==> x in multiset(t);
    }
  }

  /** A map that is one-to-one and onto keeps the number of elements. */
  lemma {:induction false} BijectionKeepsSize<T, U>(a: set<T>, b: set<U>, f: map<T, U>)
    requires f.Keys == a
    requires forall x, y :: x in a && y in a && f[x] == f[y] ==> x == y
    requires forall x :: x in a ==> f[x] in b
    requires forall y :: y in b ==> exists x :: x in a && f[x] == y
    ensures |a| == |b|
    decreases a
  {
    if a == {} {
      assert b == {};
    } else {
      var x :| x in a;
      var g := map y | y in a - {x} :: f[y];
      forall y | y in b - {f[x]} ensures exists z :: z in a - {x} && g[z] == y {
        var z :| z in a && f[z] == y;
        assert z in a - {x} && g[z] == y;
      }
      BijectionKeepsSize(a - {x}, b - {f[x]}, g);
    }
  }
}
