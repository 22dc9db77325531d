/** Choosing a free workspace name when an account is registered. */
module Slug {
  import opened Text

  /** The names tried: the base, then the base with suffix 1, 2, and so on. */
  function Candidate(base: string, k: nat): string {
    if k == 0 then base else base + "-" + Decimal(k)
  }

  lemma CandidatesDiffer(base: string, j: nat, k: nat)
    requires j != k
    ensures Candidate(base, j) != Candidate(base, k)
  {
    var a, b := Candidate(base, j), Candidate(base, k);
    if j > 0 && k > 0 && a == b {
      assert a[|base| + 1..] == Decimal(j) && b[|base| + 1..] == Decimal(k);
      DecimalInjective(j, k);
    }
  }

  /** The first `n` candidates. */
  ghost function Tried(base: string, n: nat): set<string> {
    set k: nat | k < n :: Candidate(base, k)
  }

  lemma {:induction false} TriedSize(base: string, n: nat)
    ensures |Tried(base, n)| == n
  {
    if n > 0 {
      TriedSize(base, n - 1);
      forall k: nat | k < n - 1 ensures Candidate(base, k) != Candidate(base, n - 1) {
        CandidatesDiffer(base, k, n - 1);
      }
      assert Tried(base, n) == Tried(base, n - 1) + {Candidate(base, n - 1)};
    }
  }

  lemma {:induction false} SubsetSize(a: set<string>, b: set<string>)
    requires a <= b
    ensures |a| <= |b|
  {
    if a != {} {
      var x :| x in a;
      SubsetSize(a - {x}, b - {x});
    }
  }

  /** While every candidate so far is taken, there are at least as many names as candidates. */
  lemma TakenBound(base: string, n: nat, existing: set<string>)
    requires forall k: nat :: k < n ==> Candidate(base, k) in existing
    ensures n <= |existing|
  {
    TriedSize(base, n);
    SubsetSize(Tried(base, n), existing);
  }

  /** Looks names up until one is free: the base or the smallest free suffix, after at most one lookup more than
      there are names. */
  method FreeSlug(base: string, existing: set<string>) returns (slug: string, lookups: nat)
    ensures slug !in existing
    ensures 1 <= lookups <= |existing| + 1
    ensures slug == if lookups == 1 then base else base + "-" + Decimal(lookups - 1)
    ensures lookups > 1 ==> base in existing
    ensures forall k: nat :: 1 <= k < lookups - 1 ==> base + "-" + Decimal(k) in existing
  {
    slug := base;
    var suffix := 1;
    lookups := 1;
    while slug in existing
      invariant lookups == suffix >= 1 && slug == Candidate(base, suffix - 1)
      invariant forall k: nat :: k < suffix - 1 ==> Candidate(base, k) in existing
      decreases |existing| - (suffix - 1)
    {
      TakenBound(base, suffix, existing);
      slug := base + "-" + Decimal(suffix);
      suffix := suffix + 1;
      lookups := lookups + 1;
    }
    TakenBound(base, suffix - 1, existing);
    assert suffix > 1 ==> Candidate(base, 0) in existing;
    forall k: nat | 1 <= k < lookups - 1 ensures base + "-" + Decimal(k) in existing {
      assert Candidate(base, k) in existing;
    }
  }
}
