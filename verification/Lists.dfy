/** Filtering, and what survives a reordering. */
module Lists {
  import opened Order

  function Filter<T>(s: seq<T>, p: T -> bool): seq<T> {
    if s == [] then [] else (if p(s[0]) then [s[0]] else []) + Filter(s[1..], p)
  }

  lemma {:induction false} ConcatAssociates<T>(a: seq<T>, b: seq<T>, c: seq<T>)
    ensures (a + b) + c == a + (b + c)
  {
  }

  lemma {:induction false} FilterConcat<T>(a: seq<T>, b: seq<T>, p: T -> bool)
    ensures Filter(a + b, p) == Filter(a, p) + Filter(b, p)
  {
    if a == [] {
      assert a + b == b;
    } else {
      var whole, head := a + b, if p(a[0]) then [a[0]] else [];
      assert whole[0] == a[0] && whole[1..] == a[1..] + b;
      FilterConcat(a[1..], b, p);
      ConcatAssociates(head, Filter(a[1..], p), Filter(b, p));
    }
  }

  lemma {:induction false} InsertStable<T>(x: T, s: seq<T>, le: (T, T) -> bool, p: T -> bool)
    requires forall a, b :: a in [x] + s && b in [x] + s && p(a) && p(b) ==> le(a, b)
    ensures Filter(Insert(x, s, le), p) == Filter([x] + s, p)
  {
    if s == [] || le(x, s[0]) {
    } else {
      var rest := s[1..];
      assert s == [s[0]] + rest && ([x] + s)[1..] == s;
      assert s[0] in [x] + s && x in [x] + s;
      assert forall a :: a in [x] + rest ==> a in [x] + s;
      InsertStable(x, rest, le, p);
      assert ([s[0]] + Insert(x, rest, le))[1..] == Insert(x, rest, le);
      assert ([x] + rest)[1..] == rest;
    }
  }

  /** Sorting is stable: elements the order does not tell apart keep the order they came in. */
  lemma {:induction false} SortStable<T>(s: seq<T>, le: (T, T) -> bool, p: T -> bool)
    requires forall a, b :: a in s && b in s && p(a) && p(b) ==> le(a, b)
    ensures Filter(Sort(s, le), p) == Filter(s, p)
  {
    if s != [] {
      var rest := s[1..];
      assert s == [s[0]] + rest;
      SortStable(rest, le, p);
      SortMembers(rest, le);
      InsertStable(s[0], Sort(rest, le), le, p);
      assert ([s[0]] + Sort(rest, le))[1..] == Sort(rest, le);
    }
  }

  lemma {:induction false} FilterMembers<T>(s: seq<T>, p: T -> bool)
    ensures forall x :: x in Filter(s, p) ==> x in s && p(x)
    ensures forall x :: x in s && p(x) ==> x in Filter(s, p)
  {
    if s != [] {
      FilterMembers(s[1..], p);
      assert s == [s[0]] + s[1..];
    }
  }

  /** Reordering the input only reorders what passes. */
  lemma {:induction false} FilterReorder<T>(a: seq<T>, b: seq<T>, p: T -> bool)
    requires multiset(a) == multiset(b)
    ensures multiset(Filter(a, p)) == multiset(Filter(b, p))
    ensures |Filter(a, p)| == |Filter(b, p)|
    ensures |Filter(a, p)| == 1 ==> Filter(a, p)[0] == Filter(b, p)[0]
  {
    FilterBag(a, b, p);
    SameBag(Filter(a, p), Filter(b, p));
  }

  lemma {:induction false} FilterBag<T>(a: seq<T>, b: seq<T>, p: T -> bool)
    requires multiset(a) == multiset(b)
    ensures multiset(Filter(a, p)) == multiset(Filter(b, p))
    decreases |a|
  {
    SameBag(a, b);
    if a != [] {
      var k := TakeOut(a, b);
      FilterBag(a[1..], b[..k] + b[k + 1..], p);
      FilterAround(b, k, p);
      FilterAround(a, 0, p);
      assert a[..0] + a[1..] == a[1..];
    }
  }

  lemma {:induction false} TakeOut<T>(a: seq<T>, b: seq<T>) returns (k: nat)
    requires a != [] && multiset(a) == multiset(b)
    ensures k < |b| && b[k] == a[0] && multiset(a[1..]) == multiset(b[..k] + b[k + 1..])
  {
    assert a[0] in multiset(b);
    k :| 0 <= k < |b| && b[k] == a[0];
    RemoveAt(a, 0);
    RemoveAt(b, k);
    assert a[..0] + a[1..] == a[1..];
    CancelOne(a[0], multiset(a[1..]), multiset(b[..k] + b[k + 1..]));
  }

  lemma {:induction false} RemoveAt<T>(b: seq<T>, k: nat)
    requires k < |b|
    ensures multiset(b) == multiset{b[k]} + multiset(b[..k] + b[k + 1..])
  {
    assert b == b[..k] + ([b[k]] + b[k + 1..]);
  }

  lemma {:induction false} CancelOne<T>(x: T, m: multiset<T>, n: multiset<T>)
    requires multiset{x} + m == multiset{x} + n
    ensures m == n
  {
    assert m == multiset{x} + m - multiset{x};
    assert n == multiset{x} + n - multiset{x};
  }

  lemma {:induction false} FilterAround<T>(b: seq<T>, k: nat, p: T -> bool)
    requires k < |b|
    ensures multiset(Filter(b, p)) == multiset(Filter([b[k]], p)) + multiset(Filter(b[..k] + b[k + 1..], p))
  {
    FilterConcat(b[..k], b[k + 1..], p);
    assert b == b[..k] + ([b[k]] + b[k + 1..]);
    FilterConcat(b[..k], [b[k]] + b[k + 1..], p);
    FilterConcat([b[k]], b[k + 1..], p);
  }

  lemma {:induction false} CancelLess<T>(x: T, m: multiset<T>, n: multiset<T>)
    requires multiset{x} + m <= multiset{x} + n
    ensures m <= n
  {
    assert m == multiset{x} + m - multiset{x};
    assert n == multiset{x} + n - multiset{x};
  }

  lemma {:induction false} BagSize<T>(a: seq<T>, b: seq<T>, c: seq<T>)
    requires multiset(a) == multiset(b) + multiset(c)
    ensures |a| == |b| + |c|
  {
    assert |multiset(a)| == |a| && |multiset(b)| == |b| && |multiset(c)| == |c|;
  }

  /** A part has no more that passes than the whole. */
  lemma {:induction false} TakeOutPart<T>(part: seq<T>, whole: seq<T>) returns (k: nat)
    requires part != [] && multiset(part) <= multiset(whole)
    ensures k < |whole| && whole[k] == part[0] && multiset(part[1..]) <= multiset(whole[..k] + whole[k + 1..])
  {
    var x := part[0];
    assert x in multiset(part) && x in multiset(whole);
    k :| 0 <= k < |whole| && whole[k] == x;
    RemoveAt(whole, k);
    RemoveAt(part, 0);
    assert part[..0] + part[1..] == part[1..];
    CancelLess(x, multiset(part[1..]), multiset(whole[..k] + whole[k + 1..]));
  }

  lemma {:induction false} FilterPart<T>(part: seq<T>, whole: seq<T>, p: T -> bool)
    requires multiset(part) <= multiset(whole)
    ensures |Filter(part, p)| <= |Filter(whole, p)|
    decreases |part|
  {
    if part != [] {
      var x := part[0];
      var k := TakeOutPart(part, whole);
      var rest := whole[..k] + whole[k + 1..];
      FilterPart(part[1..], rest, p);
      FilterAround(whole, k, p);
      BagSize(Filter(whole, p), Filter([x], p), Filter(rest, p));
      FilterAround(part, 0, p);
      BagSize(Filter(part, p), Filter([x], p), Filter(part[1..], p));
    }
  }

  lemma {:induction false} SameBag<T>(x: seq<T>, y: seq<T>)
    requires multiset(x) == multiset(y)
    ensures |x| == |y| && (|x| == 1 ==> x[0] == y[0])
  {
    assert |multiset(x)| == |x| && |multiset(y)| == |y|;
    if |x| == 1 {
      assert x[0] in multiset(y);
    }
  }

  /** Two positions that pass are two elements that pass. */
  lemma {:induction false} FilterTwo<T>(s: seq<T>, p: T -> bool, i: nat, j: nat)
    requires i < j < |s| && p(s[i]) && p(s[j])
    ensures |Filter(s, p)| >= 2
  {
    if i == 0 {
      FilterOne(s[1..], p, j - 1);
    } else {
      FilterTwo(s[1..], p, i - 1, j - 1);
    }
  }

  /** More than one element passes exactly when two positions do. */
  lemma {:induction false} FilterMany<T>(s: seq<T>, p: T -> bool)
    ensures |Filter(s, p)| > 1 <==> exists i, j :: 0 <= i < j < |s| && p(s[i]) && p(s[j])
  {
    if exists i, j :: 0 <= i < j < |s| && p(s[i]) && p(s[j]) {
      var i, j :| 0 <= i < j < |s| && p(s[i]) && p(s[j]);
      FilterTwo(s, p, i, j);
    }
    if |Filter(s, p)| > 1 {
      var rest := s[1..];
      assert forall k :: 0 <= k < |rest| ==> rest[k] == s[k + 1];
      FilterMany(rest, p);
      if p(s[0]) {
        FilterSome(rest, p);
        var j :| 0 <= j < |rest| && p(rest[j]);
        assert p(s[0]) && p(s[j + 1]);
      } else {
        var i, j :| 0 <= i < j < |rest| && p(rest[i]) && p(rest[j]);
        assert p(s[i + 1]) && p(s[j + 1]);
      }
    }
  }

  /** Something passes exactly when some position does. */
  lemma {:induction false} FilterSome<T>(s: seq<T>, p: T -> bool)
    ensures Filter(s, p) != [] <==> exists i :: 0 <= i < |s| && p(s[i])
  {
    FilterMembers(s, p);
    if Filter(s, p) != [] {
      assert Filter(s, p)[0] in s;
    }
    if exists i :: 0 <= i < |s| && p(s[i]) {
      var i :| 0 <= i < |s| && p(s[i]);
      assert s[i] in s;
    }
  }

  lemma {:induction false} FilterOne<T>(s: seq<T>, p: T -> bool, i: nat)
    requires i < |s| && p(s[i])
    ensures |Filter(s, p)| >= 1
  {
    if i > 0 {
      FilterOne(s[1..], p, i - 1);
    }
  }

  /** Exactly one element passes: it sits at one position, and no other position passes. */
  lemma {:induction false} FilterUnique<T>(s: seq<T>, p: T -> bool) returns (k: nat)
    requires |Filter(s, p)| == 1
    ensures k < |s| && s[k] == Filter(s, p)[0] && p(s[k])
    ensures forall i :: 0 <= i < |s| && p(s[i]) ==> i == k
  {
    FilterMembers(s, p);
    assert Filter(s, p)[0] in Filter(s, p);
    k :| 0 <= k < |s| && s[k] == Filter(s, p)[0];
    forall i | 0 <= i < |s| && p(s[i]) ensures i == k {
      if i < k {
        FilterTwo(s, p, i, k);
      } else if k < i {
        FilterTwo(s, p, k, i);
      }
    }
  }

  lemma {:induction false} FilterNone<T>(s: seq<T>, p: T -> bool)
    requires forall i :: 0 <= i < |s| ==> !p(s[i])
    ensures Filter(s, p) == []
  {
    if s != [] {
      FilterNone(s[1..], p);
    }
  }

  /** Only one position passes: it is all that is left. */
  lemma {:induction false} FilterSole<T>(s: seq<T>, p: T -> bool, k: nat)
    requires k < |s| && p(s[k]) && forall i :: 0 <= i < |s| && p(s[i]) ==> i == k
    ensures Filter(s, p) == [s[k]]
  {
    if k == 0 {
      FilterNone(s[1..], p);
    } else {
      FilterSole(s[1..], p, k - 1);
    }
  }

  function Map<A, B>(s: seq<A>, f: A -> B): (r: seq<B>)
    ensures |r| == |s| && forall i :: 0 <= i < |s| ==> r[i] == f(s[i])
  {
    if s == [] then [] else [f(s[0])] + Map(s[1..], f)
  }

  lemma {:induction false} MapConcat<A, B>(a: seq<A>, b: seq<A>, f: A -> B)
    ensures Map(a + b, f) == Map(a, f) + Map(b, f)
  {
  }

  lemma {:induction false} MapBag<A, B>(a: seq<A>, b: seq<A>, f: A -> B)
    requires multiset(a) == multiset(b)
    ensures multiset(Map(a, f)) == multiset(Map(b, f))
    decreases |a|
  {
    SameBag(a, b);
    if a != [] {
      var k := TakeOut(a, b);
      MapBag(a[1..], b[..k] + b[k + 1..], f);
      MapAround(b, k, f);
      MapAround(a, 0, f);
      assert a[..0] + a[1..] == a[1..];
    }
  }

  lemma {:induction false} MapAround<A, B>(b: seq<A>, k: nat, f: A -> B)
    requires k < |b|
    ensures multiset(Map(b, f)) == multiset{f(b[k])} + multiset(Map(b[..k] + b[k + 1..], f))
  {
    var all := Map(b, f);
    RemoveAt(all, k);
    assert all[..k] + all[k + 1..] == Map(b[..k] + b[k + 1..], f);
  }
}
