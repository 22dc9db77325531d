/** The order of number sequences by the first place that differs, as Python orders tuples and as calendar fields order
    time. */
module Order {

  /** The first place that differs decides; a proper prefix comes first. */
  predicate Less(a: seq<nat>, b: seq<nat>) {
    if b == [] then false
    else if a == [] then true
    else a[0] < b[0] || (a[0] == b[0] && Less(a[1..], b[1..]))
  }

  lemma {:induction false} LessTrichotomy(a: seq<nat>, b: seq<nat>)
    ensures Less(a, b) || Less(b, a) || a == b
    ensures !(Less(a, b) && Less(b, a)) && !Less(a, a)
  {
    if a != [] && b != [] {
      LessTrichotomy(a[1..], b[1..]);
      if a[0] == b[0] && a[1..] == b[1..] {
        assert a == [a[0]] + a[1..];
      }
    }
    if a != [] { LessTrichotomy(a[1..], a[1..]); }
  }

  lemma {:induction false} LessTransitive(a: seq<nat>, b: seq<nat>, c: seq<nat>)
    requires Less(a, b) && Less(b, c)
    ensures Less(a, c)
  {
    if a != [] && a[0] == b[0] == c[0] {
      LessTransitive(a[1..], b[1..], c[1..]);
    }
  }

  /** The order is settled by the first place where two sequences differ; a missing place comes first. */
  lemma {:induction false} LessMeaning(a: seq<nat>, b: seq<nat>)
    ensures Less(a, b) <==> exists k: nat :: DiffersAt(a, b, k)
  {
    if a != [] && b != [] {
      LessMeaning(a[1..], b[1..]);
      if Less(a, b) {
        if a[0] < b[0] {
          assert DiffersAt(a, b, 0);
        } else {
          var k: nat :| DiffersAt(a[1..], b[1..], k);
          assert forall i :: 0 <= i < k + 1 ==> a[i] == (if i == 0 then b[0] else b[1..][i - 1]);
          assert DiffersAt(a, b, k + 1);
        }
      }
      forall k: nat | DiffersAt(a, b, k) ensures Less(a, b) {
        if k > 0 { assert DiffersAt(a[1..], b[1..], k - 1); }
      }
    } else if a == [] && b != [] {
      assert DiffersAt(a, b, 0);
    }
  }

  ghost predicate DiffersAt(a: seq<nat>, b: seq<nat>, k: nat) {
    && k <= |a| && k < |b|
    && (forall i :: 0 <= i < k ==> a[i] == b[i])
    && (k == |a| || a[k] < b[k])
  }

  lemma LessCons(m: nat, n: nat, a: seq<nat>, b: seq<nat>)
    ensures Less([m] + a, [n] + b) <==> m < n || (m == n && Less(a, b))
    ensures [m] + a == [n] + b <==> m == n && a == b
  {
    assert ([m] + a)[1..] == a && ([n] + b)[1..] == b;
  }

  lemma {:induction false} LessLast(a: seq<nat>, b: seq<nat>, x: nat, y: nat)
    requires |a| == |b|
    ensures Less(a + [x], b + [y]) <==> Less(a, b) || (a == b && x < y)
  {
    if a != [] {
      assert (a + [x])[1..] == a[1..] + [x] && (b + [y])[1..] == b[1..] + [y];
      LessLast(a[1..], b[1..], x, y);
      assert a == [a[0]] + a[1..] && b == [b[0]] + b[1..];
    }
  }
}
