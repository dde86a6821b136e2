/** Definitions shared by every component: optional values and sequences of distinct keys. */
module Common {
  datatype Option<+T> = None | Some(value: T)

  newtype Byte = x: int | 0 <= x < 256

  const LF: Byte := 10

  predicate NoDuplicates<T(==)>(s: seq<T>) {
    s == [] || (s[0] !in s[1..] && NoDuplicates(s[1..]))
  }

  /** `s` without any occurrence of `x`. */
  function Without<T(==)>(s: seq<T>, x: T): (r: seq<T>) {
    if s == [] then []
    else if s[0] == x then Without(s[1..], x)
    else [s[0]] + Without(s[1..], x)
  }

  lemma {:induction false} InWithout<T>(s: seq<T>, x: T, y: T)
    ensures y in Without(s, x) <==> y in s && y != x
  {
    if s != [] {
      InWithout(s[1..], x, y);
      assert y in s <==> y == s[0] || y in s[1..];
    }
  }

  lemma {:induction false} WithoutAbsent<T>(s: seq<T>, x: T)
    requires x !in s
    ensures Without(s, x) == s
  {
    if s != [] {
      WithoutAbsent(s[1..], x);
    }
  }

  lemma {:induction false} WithoutKeepsDistinct<T>(s: seq<T>, x: T)
    requires NoDuplicates(s)
    ensures NoDuplicates(Without(s, x))
    ensures |Without(s, x)| == if x in s then |s| - 1 else |s|
  {
    if s != [] {
      WithoutKeepsDistinct(s[1..], x);
      if s[0] != x {
        InWithout(s[1..], x, s[0]);
        assert Without(s, x)[1..] == Without(s[1..], x);
      } else {
        WithoutAbsent(s[1..], x);
      }
    }
  }

  lemma {:induction false} AppendKeepsDistinct<T>(s: seq<T>, x: T)
    requires NoDuplicates(s) && x !in s
    ensures NoDuplicates(s + [x])
  {
    if s != [] {
      AppendKeepsDistinct(s[1..], x);
      assert (s + [x])[1..] == s[1..] + [x];
    }
  }

  lemma {:induction false} WithoutAppended<T>(s: seq<T>, x: T)
    requires x !in s
    ensures Without(s + [x], x) == s
  {
    if s != [] {
      WithoutAppended(s[1..], x);
      assert (s + [x])[1..] == s[1..] + [x];
    }
  }

  /** The elements behind the first occurrence of `k`. */
  function After<T(==)>(s: seq<T>, k: T): set<T> {
    if s == [] then {} else if s[0] == k then Elements(s[1..]) else After(s[1..], k)
  }

  function Elements<T(==)>(s: seq<T>): set<T> {
    if s == [] then {} else {s[0]} + Elements(s[1..])
  }

  lemma {:induction false} InElements<T>(s: seq<T>, x: T)
    ensures x in Elements(s) <==> x in s
  {
    if s != [] {
      InElements(s[1..], x);
    }
  }

  lemma {:induction false} ElementsMoveToEnd<T>(s: seq<T>, k: T)
    ensures Elements(Without(s, k) + [k]) == Elements(s) + {k}
  {
    var r := Without(s, k) + [k];
    if s != [] {
      ElementsMoveToEnd(s[1..], k);
      if s[0] != k {
        assert r[1..] == Without(s[1..], k) + [k];
      }
    }
  }

  lemma {:induction false} AfterMoveToEnd<T>(s: seq<T>, k: T, q: T)
    requires q in s && q != k
    ensures After(Without(s, k) + [k], q) == After(s, q) + {k}
  {
    var r := Without(s, k) + [k];
    if s[0] != k {
      assert r[1..] == Without(s[1..], k) + [k];
    }
    if s[0] == q {
      ElementsMoveToEnd(s[1..], k);
    } else {
      AfterMoveToEnd(s[1..], k, q);
    }
  }

  lemma {:induction false} ElementsWithout<T>(s: seq<T>, k: T)
    ensures Elements(Without(s, k)) == Elements(s) - {k}
  {
    if s != [] {
      ElementsWithout(s[1..], k);
    }
  }

  lemma {:induction false} AfterWithout<T>(s: seq<T>, k: T, q: T)
    requires q in s && q != k
    ensures After(Without(s, k), q) == After(s, q) - {k}
  {
    if s[0] == q {
      ElementsWithout(s[1..], k);
    } else {
      AfterWithout(s[1..], k, q);
    }
  }

  /** As many elements as possible are behind the first one alone. */
  lemma FirstHasAllBehind<T>(s: seq<T>, k: T)
    requires NoDuplicates(s) && k in s && |After(s, k)| >= |s| - 1
    ensures s[0] == k && Elements(s) == After(s, k) + {k}
  {
    if s[0] != k {
      AfterIsSmall(s[1..], k);
    }
  }

  lemma {:induction false} AfterInElements<T>(s: seq<T>, k: T)
    ensures After(s, k) <= Elements(s)
  {
    if s != [] && s[0] != k {
      AfterInElements(s[1..], k);
    }
  }

  lemma {:induction false} AfterAppended<T>(s: seq<T>, k: T)
    requires k !in s
    ensures After(s + [k], k) == {}
  {
    if s != [] {
      AfterAppended(s[1..], k);
      assert (s + [k])[1..] == s[1..] + [k];
    }
  }

  lemma {:induction false} ElementsConcat<T>(a: seq<T>, b: seq<T>)
    ensures Elements(a + b) == Elements(a) + Elements(b)
  {
    if a == [] {
      assert a + b == b;
    } else {
      ElementsConcat(a[1..], b);
      assert (a + b)[1..] == a[1..] + b;
    }
  }

  lemma {:induction false} DistinctCardinality<T>(s: seq<T>)
    requires NoDuplicates(s)
    ensures |Elements(s)| == |s|
  {
    if s != [] {
      DistinctCardinality(s[1..]);
      InElements(s[1..], s[0]);
    }
  }

  lemma {:induction false} AfterIsSmall<T>(s: seq<T>, k: T)
    requires NoDuplicates(s) && k in s
    ensures |After(s, k)| < |s|
  {
    if s[0] == k {
      DistinctCardinality(s[1..]);
    } else {
      AfterIsSmall(s[1..], k);
    }
  }

  lemma SplitLast<T>(s: seq<T>)
    requires s != []
    ensures s[..|s| - 1] + [s[|s| - 1]] == s
  {
  }

  lemma InitOfConcat<T>(a: seq<T>, b: seq<T>)
    requires b != []
    ensures (a + b)[..|a + b| - 1] == a + b[..|b| - 1] && (a + b)[|a + b| - 1] == b[|b| - 1]
  {
  }

  lemma SplitAt<T>(s: seq<T>, i: nat)
    requires i <= |s|
    ensures s[..i] + s[i..] == s
  {
  }

  lemma SplitFirst<T>(s: seq<T>, i: nat)
    requires 0 < i <= |s|
    ensures [s[0]] + s[1..][..i - 1] == s[..i]
  {
  }

  lemma SubsetCardinality<T>(a: set<T>, b: set<T>)
    requires a <= b
    ensures |a| <= |b|
  {
    assert b == a + (b - a);
  }

  lemma {:induction false} SubsetOfSize<T>(s: set<T>, n: nat)
    requires n <= |s|
    ensures exists t :: t <= s && |t| == n
    decreases |s|
  {
    if n == |s| {
      assert s <= s;
    } else {
      var x :| x in s;
      SubsetOfSize(s - {x}, n);
      var t :| t <= s - {x} && |t| == n;
      assert t <= s;
    }
  }

  /** Any one element. */
  method Pick<T>(s: set<T>) returns (x: T)
    requires s != {}
    ensures x in s
  {
    x :| x in s;
  }

  /** The values of `f` over `s`, without their order. */
  ghost function Bag<A, B>(f: A -> B, s: seq<A>): multiset<B> {
    if s == [] then multiset{} else multiset{f(s[0])} + Bag(f, s[1..])
  }

  lemma {:induction false} BagRemoveAt<A, B>(f: A -> B, s: seq<A>, k: nat)
    requires k < |s|
    ensures Bag(f, s) == multiset{f(s[k])} + Bag(f, s[..k] + s[k + 1..])
  {
    if k == 0 {
      assert s[..0] + s[1..] == s[1..];
    } else {
      BagRemoveAt(f, s[1..], k - 1);
      assert (s[..k] + s[k + 1..])[1..] == s[1..][..k - 1] + s[1..][k..];
    }
  }

  lemma {:induction false} BagPermute<A, B>(f: A -> B, a: seq<A>, b: seq<A>)
    requires multiset(a) == multiset(b)
    ensures Bag(f, a) == Bag(f, b)
    decreases |a|
  {
    if a == [] {
      assert |multiset(b)| == 0;
    } else {
      assert a[0] in multiset(b);
      var k :| 0 <= k < |b| && b[k] == a[0];
      var rest := b[..k] + b[k + 1..];
      RemoveAt(b, k);
      assert a == [a[0]] + a[1..];
      Cancel(a[0], multiset(a[1..]), multiset(rest));
      BagPermute(f, a[1..], rest);
      BagRemoveAt(f, b, k);
    }
  }

  lemma Cancel<T>(x: T, a: multiset<T>, b: multiset<T>)
    requires multiset{x} + a == multiset{x} + b
    ensures a == b
  {
    assert a == multiset{x} + a - multiset{x};
    assert b == multiset{x} + b - multiset{x};
  }

  lemma RemoveAt<T>(s: seq<T>, k: nat)
    requires k < |s|
    ensures multiset(s) == multiset{s[k]} + multiset(s[..k] + s[k + 1..])
  {
    assert s == s[..k] + [s[k]] + s[k + 1..];
  }

  lemma ConcatAssoc<T>(a: seq<T>, b: seq<T>, c: seq<T>)
    ensures (a + b) + c == a + (b + c)
  {
  }

  /** All the parts, joined. */
  function Concat<T>(parts: seq<seq<T>>): seq<T> {
    if parts == [] then [] else parts[0] + Concat(parts[1..])
  }

  lemma {:induction false} ConcatAppend<T>(parts: seq<seq<T>>, last: seq<T>)
    ensures Concat(parts + [last]) == Concat(parts) + last
  {
    if parts == [] {
      assert parts + [last] == [last] && Concat([last]) == last + Concat([last][1..]);
    } else {
      assert (parts + [last])[1..] == parts[1..] + [last];
      ConcatAppend(parts[1..], last);
      ConcatAssoc(parts[0], Concat(parts[1..]), last);
    }
  }

  // ---- Picking elements ------------------------------------------------------

  function Itself<T>(x: T): T {
    x
  }

  /** How many elements are kept. */
  function CountKept<A>(s: seq<A>, keep: A -> bool): nat {
    if s == [] then 0 else CountKept(s[..|s| - 1], keep) + if keep(s[|s| - 1]) then 1 else 0
  }

  /** What `f` makes of the kept element at `i` stands in `r` behind as many others as are kept before it. */
  predicate Stands<A, B(==)>(s: seq<A>, r: seq<B>, keep: A -> bool, f: A -> B, i: nat)
    requires i < |s|
  {
    keep(s[i]) ==> CountKept(s[..i], keep) < |r| && r[CountKept(s[..i], keep)] == f(s[i])
  }

  /** `r` holds, in order, what `f` makes of exactly the elements of `s` that are kept. */
  predicate Picks<A, B(==)>(s: seq<A>, r: seq<B>, keep: A -> bool, f: A -> B) {
    |r| == CountKept(s, keep) && forall i :: 0 <= i < |s| ==> Stands(s, r, keep, f, i)
  }

  lemma PicksNothing<A, B>(keep: A -> bool, f: A -> B)
    ensures Picks([], [], keep, f)
  {
  }

  lemma PicksLast<A, B>(s: seq<A>, r: seq<B>, keep: A -> bool, f: A -> B, x: A)
    requires Picks(s, r, keep, f)
    ensures Picks(s + [x], if keep(x) then r + [f(x)] else r, keep, f)
  {
    var t, longer := s + [x], if keep(x) then r + [f(x)] else r;
    assert t[..|s|] == s;
    forall i | 0 <= i < |t| ensures Stands(t, longer, keep, f, i) {
      if i < |s| {
        assert t[..i] == s[..i] && Stands(s, r, keep, f, i);
      }
    }
  }

  lemma {:induction false} KeptFirst<A>(x: A, s: seq<A>, keep: A -> bool)
    ensures CountKept([x] + s, keep) == (if keep(x) then 1 else 0) + CountKept(s, keep)
  {
    if s == [] {
      assert [x] + s == [x] && [x][..0] == [];
    } else {
      KeptFirst(x, s[..|s| - 1], keep);
      InitOfConcat([x], s);
    }
  }

  lemma StandsBehind<A, B>(x: A, s: seq<A>, r: seq<B>, keep: A -> bool, f: A -> B, i: nat)
    requires i < |s| && Stands(s, r, keep, f, i)
    ensures Stands([x] + s, if keep(x) then [f(x)] + r else r, keep, f, i + 1)
  {
    KeptFirst(x, s[..i], keep);
    assert ([x] + s)[..i + 1] == [x] + s[..i];
  }

  lemma PicksFirst<A, B>(x: A, s: seq<A>, r: seq<B>, keep: A -> bool, f: A -> B)
    requires Picks(s, r, keep, f)
    ensures Picks([x] + s, if keep(x) then [f(x)] + r else r, keep, f)
  {
    KeptFirst(x, s, keep);
    var t, longer := [x] + s, if keep(x) then [f(x)] + r else r;
    forall i | 0 <= i < |t| ensures Stands(t, longer, keep, f, i) {
      if i > 0 {
        StandsBehind(x, s, r, keep, f, i - 1);
      } else {
        assert t[..0] == [];
      }
    }
  }

  /** There is one such sequence only. */
  lemma {:induction false} PicksIsExact<A, B>(s: seq<A>, a: seq<B>, b: seq<B>, keep: A -> bool, f: A -> B)
    requires Picks(s, a, keep, f) && Picks(s, b, keep, f)
    ensures a == b
  {
    if s != [] {
      var n := |s| - 1;
      PicksInit(s, a, keep, f);
      PicksInit(s, b, keep, f);
      var m := CountKept(s[..n], keep);
      PicksIsExact(s[..n], a[..m], b[..m], keep, f);
      assert Stands(s, a, keep, f, n) && Stands(s, b, keep, f, n);
      assert a == a[..m] + a[m..] && b == b[..m] + b[m..];
    }
  }

  lemma {:induction false} KeptGrows<A>(s: seq<A>, keep: A -> bool, i: nat, n: nat)
    requires i < n <= |s| && keep(s[i])
    ensures CountKept(s[..i], keep) < CountKept(s[..n], keep)
  {
    assert s[..n][..n - 1] == s[..n - 1];
    if i < n - 1 {
      KeptGrows(s, keep, i, n - 1);
    }
  }

  lemma PicksInit<A, B>(s: seq<A>, r: seq<B>, keep: A -> bool, f: A -> B)
    requires Picks(s, r, keep, f) && s != []
    ensures CountKept(s[..|s| - 1], keep) <= |r|
    ensures Picks(s[..|s| - 1], r[..CountKept(s[..|s| - 1], keep)], keep, f)
  {
    var n := |s| - 1;
    var m := CountKept(s[..n], keep);
    forall i | 0 <= i < n ensures Stands(s[..n], r[..m], keep, f, i) {
      assert Stands(s, r, keep, f, i) && s[..n][..i] == s[..i];
      if keep(s[i]) {
        KeptGrows(s, keep, i, n);
      }
    }
  }

  lemma SliceOfTail<T>(head: seq<T>, tail: seq<T>, from: nat, to: nat)
    requires from <= to <= |tail|
    ensures (head + tail)[|head| + from..|head| + to] == tail[from..to]
  {
  }

  lemma SliceOfHead<T>(head: seq<T>, tail: seq<T>, from: nat, to: nat)
    requires from <= to <= |head|
    ensures (head + tail)[from..to] == head[from..to]
  {
  }

  lemma SliceOfPrefix<T>(s: seq<T>, n: nat, from: nat, to: nat)
    requires from <= to <= n <= |s|
    ensures s[..n][from..to] == s[from..to]
  {
  }

  lemma SliceOfSlice<T>(s: seq<T>, from: nat, to: nat, a: nat, b: nat)
    requires from <= a <= b <= to <= |s|
    ensures s[from..to][a - from..b - from] == s[a..b]
  {
    var w := s[from..to];
    forall i | 0 <= i < b - a ensures w[a - from..b - from][i] == s[a..b][i] {
      assert w[a - from + i] == s[a + i];
    }
  }
}
