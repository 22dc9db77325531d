/** Keeping the elements of a sequence that pass a test, in order. */
module Lists {

  function Filter<T>(s: seq<T>, p: T -> bool): (r: seq<T>)
    ensures forall x <- r :: p(x) && x in s
    ensures forall x <- s :: p(x) ==> x in r
    ensures |r| <= |s|
  {
    if s == [] then []
    else
      var rest := Filter(s[1..], p);
      assert s == [s[0]] + s[1..];
      if p(s[0]) then [s[0]] + rest else rest
  }

  function Not<T>(p: T -> bool): T -> bool { x => !p(x) }

  function Both<T>(p: T -> bool, q: T -> bool): T -> bool { x => p(x) && q(x) }

  lemma {:induction false} FilterAppend<T>(a: seq<T>, b: seq<T>, p: T -> bool)
    ensures Filter(a + b, p) == Filter(a, p) + Filter(b, p)
  {
    if a == [] {
      assert a + b == b;
    } else {
      assert (a + b)[1..] == a[1..] + b;
      FilterAppend(a[1..], b, p);
    }
  }

  lemma {:induction false} FilterFilter<T>(s: seq<T>, p: T -> bool, q: T -> bool)
    ensures Filter(Filter(s, p), q) == Filter(s, Both(p, q))
  {
    if s != [] {
      FilterFilter(s[1..], p, q);
      var rest := Filter(s[1..], p);
      assert p(s[0]) ==> ([s[0]] + rest)[1..] == rest;
    }
  }

  lemma {:induction false} FilterAgree<T>(s: seq<T>, p: T -> bool, q: T -> bool)
    requires forall i :: 0 <= i < |s| ==> p(s[i]) == q(s[i])
    ensures Filter(s, p) == Filter(s, q)
  {
    if s != [] { FilterAgree(s[1..], p, q); }
  }

  lemma {:induction false} FilterAll<T>(s: seq<T>, p: T -> bool)
    requires forall i :: 0 <= i < |s| ==> p(s[i])
    ensures Filter(s, p) == s
  {
    if s != [] {
      FilterAll(s[1..], p);
      assert s == [s[0]] + s[1..];
    }
  }

  lemma {:induction false} FilterNone<T>(s: seq<T>, p: T -> bool)
    requires forall i :: 0 <= i < |s| ==> !p(s[i])
    ensures Filter(s, p) == []
  {
    if s != [] { FilterNone(s[1..], p); }
  }

  /** What passes and what does not make up the whole, element for element. */
  lemma {:induction false} FilterSplits<T>(s: seq<T>, p: T -> bool)
    ensures multiset(s) == multiset(Filter(s, p)) + multiset(Filter(s, Not(p)))
    ensures |s| == |Filter(s, p)| + |Filter(s, Not(p))|
  {
    if s != [] {
      FilterSplits(s[1..], p);
      assert s == [s[0]] + s[1..];
    }
  }

  /** One more element on either side of a split. */
  lemma SplitMore<T>(x: T, rest: seq<T>, a: seq<T>, b: seq<T>)
    requires multiset(rest) == multiset(a) + multiset(b)
    ensures multiset([x] + rest) == multiset([x] + a) + multiset(b)
    ensures multiset([x] + rest) == multiset(a) + multiset([x] + b)
  {
  }

  /** All but the element at one place. */
  function Without<T>(s: seq<T>, at: nat): seq<T>
    requires at < |s|
  {
    s[..at] + s[at + 1..]
  }

  // ---------- Counting ----------

  function Tally<T>(s: seq<T>, p: T -> bool): nat {
    if s == [] then 0 else Tally(s[1..], p) + if p(s[0]) then 1 else 0
  }

  lemma {:induction false} TallyAppend<T>(a: seq<T>, b: seq<T>, p: T -> bool)
    ensures Tally(a + b, p) == Tally(a, p) + Tally(b, p)
  {
    if a == [] {
      assert a + b == b;
    } else {
      assert (a + b)[1..] == a[1..] + b;
      TallyAppend(a[1..], b, p);
    }
  }

  lemma TallyOne<T>(x: T, p: T -> bool)
    ensures Tally([x], p) == if p(x) then 1 else 0
  {
    assert [x][1..] == [];
  }

  /** What one place contributes. */
  lemma TallyAt<T>(s: seq<T>, at: nat, p: T -> bool)
    requires at < |s|
    ensures Tally(s, p) == Tally(Without(s, at), p) + if p(s[at]) then 1 else 0
  {
    assert s == s[..at] + ([s[at]] + s[at + 1..]);
    TallyAppend(s[..at], [s[at]] + s[at + 1..], p);
    TallyAppend([s[at]], s[at + 1..], p);
    TallyAppend(s[..at], s[at + 1..], p);
    TallyOne(s[at], p);
  }

  lemma TallySet<T>(s: seq<T>, at: nat, x: T, p: T -> bool)
    requires at < |s|
    ensures Tally(s[at := x], p) == Tally(Without(s, at), p) + if p(x) then 1 else 0
  {
    TallyAt(s[at := x], at, p);
    assert Without(s[at := x], at) == Without(s, at);
  }

  lemma {:induction false} TallyNone<T>(s: seq<T>, p: T -> bool)
    ensures Tally(s, p) == 0 <==> forall i :: 0 <= i < |s| ==> !p(s[i])
  {
    if s != [] {
      TallyNone(s[1..], p);
      assert forall i :: 0 < i < |s| ==> s[i] == s[1..][i - 1];
    }
  }

  lemma {:induction false} TallyFewer<T>(s: seq<T>, p: T -> bool, q: T -> bool)
    requires forall x :: p(x) ==> q(x)
    ensures Tally(s, p) <= Tally(s, q)
  {
    if s != [] { TallyFewer(s[1..], p, q); }
  }
}
