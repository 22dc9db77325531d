/** Sequences of characters (or bytes) cut into lines, stripped of white space,
    and numbers written in decimal. */
module Text {

  datatype Option<+T> = None | Some(value: T)

  /** The length of the longest prefix of `s` in which `p` never holds. */
  function Until<T>(s: seq<T>, p: T -> bool): (n: nat)
    ensures n <= |s|
    ensures n < |s| ==> p(s[n])
    ensures forall i :: 0 <= i < n ==> !p(s[i])
  {
    if s == [] || p(s[0]) then 0 else 1 + Until(s[1..], p)
  }

  lemma UntilUnique<T>(s: seq<T>, p: T -> bool, n: nat)
    requires n <= |s|
    requires n < |s| ==> p(s[n])
    requires forall i :: 0 <= i < n ==> !p(s[i])
    ensures Until(s, p) == n
  {
  }

  /** The length of the longest prefix of `s` in which `p` always holds. */
  function Span<T>(s: seq<T>, p: T -> bool): (n: nat)
    ensures n <= |s|
    ensures n < |s| ==> !p(s[n])
    ensures forall i :: 0 <= i < n ==> p(s[i])
  {
    if s == [] || !p(s[0]) then 0 else 1 + Span(s[1..], p)
  }

  lemma SpanUnique<T>(s: seq<T>, p: T -> bool, n: nat)
    requires n <= |s|
    requires n < |s| ==> !p(s[n])
    requires forall i :: 0 <= i < n ==> p(s[i])
    ensures Span(s, p) == n
  {
  }

  ghost predicate All<T>(s: seq<T>, p: T -> bool) {
    forall i :: 0 <= i < |s| ==> p(s[i])
  }

  ghost predicate Never<T>(s: seq<T>, p: T -> bool) {
    forall i :: 0 <= i < |s| ==> !p(s[i])
  }

  // ---------- Lines ----------

  function Concat<T>(parts: seq<seq<T>>): seq<T> {
    if parts == [] then [] else parts[0] + Concat(parts[1..])
  }

  /** Cut after every break; the last piece may lack one. */
  function SplitKeep<T>(s: seq<T>, brk: T -> bool): (lines: seq<seq<T>>)
  {
    var n := Until(s, brk);
    if s == [] then []
    else if n == |s| then [s]
    else [s[..n + 1]] + SplitKeep(s[n + 1..], brk)
  }

  /** A non-empty piece with no break, except perhaps at its very end. */
  ghost predicate IsLine<T>(l: seq<T>, brk: T -> bool) {
    l != [] && Never(l[..|l| - 1], brk)
  }

  ghost predicate Terminated<T>(l: seq<T>, brk: T -> bool) {
    l != [] && brk(l[|l| - 1])
  }

  /** Every piece but the last ends with a break. */
  ghost predicate Chained<T>(lines: seq<seq<T>>, brk: T -> bool) {
    forall i :: 0 <= i < |lines| - 1 ==> Terminated(lines[i], brk)
  }

  lemma {:induction false} SplitKeepSound<T>(s: seq<T>, brk: T -> bool)
    ensures Concat(SplitKeep(s, brk)) == s
    ensures forall l <- SplitKeep(s, brk) :: IsLine(l, brk)
    ensures Chained(SplitKeep(s, brk), brk)
    decreases |s|
  {
    var n := Until(s, brk);
    if s != [] && n < |s| {
      SplitKeepSound(s[n + 1..], brk);
      assert s == s[..n + 1] + s[n + 1..];
      var lines := SplitKeep(s, brk);
      forall i | 0 <= i < |lines| - 1 ensures Terminated(lines[i], brk) {
        if i > 0 { assert lines[i] == SplitKeep(s[n + 1..], brk)[i - 1]; }
      }
    } else if s != [] {
      assert Concat([s]) == s + Concat<T>([]);
    }
  }

  lemma ConsAppend<T>(first: T, a: seq<T>, b: seq<T>)
    ensures [first] + (a + b) == ([first] + a) + b
  {
  }

  /** Cutting at the first break of a terminated text, with something behind it or not. */
  lemma FirstBreak<T>(a: seq<T>, b: seq<T>, brk: T -> bool)
    requires Terminated(a, brk)
    ensures var n := Until(a, brk);
      && n < |a| && Until(a + b, brk) == n
      && (a[n + 1..] == [] || Terminated(a[n + 1..], brk))
      && (a + b)[..n + 1] == a[..n + 1] && (a + b)[n + 1..] == a[n + 1..] + b
  {
    UntilUnique(a + b, brk, Until(a, brk));
  }

  lemma SplitKeepFirst<T>(s: seq<T>, brk: T -> bool)
    requires Until(s, brk) < |s|
    ensures var n := Until(s, brk); SplitKeep(s, brk) == [s[..n + 1]] + SplitKeep(s[n + 1..], brk)
  {
  }

  lemma SplitKeepCut<T>(s: seq<T>, brk: T -> bool, n: nat, first: seq<T>, rest: seq<T>)
    requires Until(s, brk) == n < |s| && s[..n + 1] == first && s[n + 1..] == rest
    ensures SplitKeep(s, brk) == [first] + SplitKeep(rest, brk)
  {
    SplitKeepFirst(s, brk);
  }

  lemma {:induction false} SplitKeepAppend<T>(a: seq<T>, b: seq<T>, brk: T -> bool)
    requires a == [] || Terminated(a, brk)
    ensures SplitKeep(a + b, brk) == SplitKeep(a, brk) + SplitKeep(b, brk)
    decreases |a|
  {
    if a == [] {
      assert a + b == b;
    } else {
      FirstBreak(a, b, brk);
      var n := Until(a, brk);
      var first, rest := a[..n + 1], a[n + 1..];
      SplitKeepCut(a, brk, n, first, rest);
      SplitKeepCut(a + b, brk, n, first, rest + b);
      SplitKeepAppend(rest, b, brk);
      ConsAppend(first, SplitKeep(rest, brk), SplitKeep(b, brk));
    }
  }

  lemma SplitKeepLine<T>(l: seq<T>, brk: T -> bool)
    requires IsLine(l, brk)
    ensures SplitKeep(l, brk) == [l]
  {
    var n := if brk(l[|l| - 1]) then |l| - 1 else |l|;
    UntilUnique(l, brk, n);
    if n < |l| { assert l[..n + 1] == l && l[n + 1..] == []; }
  }

  /** Joining lines and cutting again gives the same lines back. */
  lemma {:induction false} SplitKeepConcat<T>(lines: seq<seq<T>>, brk: T -> bool)
    requires forall l <- lines :: IsLine(l, brk)
    requires Chained(lines, brk)
    ensures SplitKeep(Concat(lines), brk) == lines
  {
    if |lines| == 1 {
      assert Concat(lines) == lines[0] + Concat(lines[1..]) == lines[0];
      SplitKeepLine(lines[0], brk);
    } else if lines != [] {
      assert Terminated(lines[0], brk);
      forall i | 0 <= i < |lines[1..]| - 1 ensures Terminated(lines[1..][i], brk) {
        assert lines[1..][i] == lines[i + 1];
      }
      SplitKeepConcat(lines[1..], brk);
      SplitKeepAppend(lines[0], Concat(lines[1..]), brk);
      SplitKeepLine(lines[0], brk);
    }
  }

  predicate IsNewline(c: char) { c == '\n' }

  // ---------- Letters ----------

  /** Lower case of the letters A to Z. */
  function LowerChar(c: char): char {
    if 'A' <= c <= 'Z' then c - 'A' + 'a' else c
  }

  function Lower(s: string): string {
    seq(|s|, i requires 0 <= i < |s| => LowerChar(s[i]))
  }

  // ---------- Stripping ----------

  function TrimLeft<T>(s: seq<T>, sp: T -> bool): seq<T> {
    if s != [] && sp(s[0]) then TrimLeft(s[1..], sp) else s
  }

  function TrimRight<T>(s: seq<T>, sp: T -> bool): seq<T> {
    if s != [] && sp(s[|s| - 1]) then TrimRight(s[..|s| - 1], sp) else s
  }

  function Strip<T>(s: seq<T>, sp: T -> bool): seq<T> {
    TrimRight(TrimLeft(s, sp), sp)
  }

  /** Neither end is white space. */
  ghost predicate Tight<T>(s: seq<T>, sp: T -> bool) {
    s == [] || (!sp(s[0]) && !sp(s[|s| - 1]))
  }

  lemma {:induction false} TrimLeftPad<T>(a: seq<T>, s: seq<T>, sp: T -> bool)
    requires All(a, sp)
    ensures TrimLeft(a + s, sp) == TrimLeft(s, sp)
  {
    if a == [] {
      assert a + s == s;
    } else {
      assert (a + s)[1..] == a[1..] + s;
      TrimLeftPad(a[1..], s, sp);
    }
  }

  lemma {:induction false} TrimRightPad<T>(s: seq<T>, b: seq<T>, sp: T -> bool)
    requires All(b, sp)
    ensures TrimRight(s + b, sp) == TrimRight(s, sp)
  {
    if b == [] {
      assert s + b == s;
    } else {
      assert (s + b)[..|s + b| - 1] == s + b[..|b| - 1];
      TrimRightPad(s, b[..|b| - 1], sp);
    }
  }

  /** The stripped text is what remains between two runs of white space. */
  lemma StripUnique<T>(a: seq<T>, s: seq<T>, b: seq<T>, sp: T -> bool)
    requires All(a, sp) && All(b, sp) && Tight(s, sp)
    ensures Strip(a + s + b, sp) == s
  {
    assert a + s + b == a + (s + b);
    TrimLeftPad(a, s + b, sp);
    if s == [] {
      assert s + b == b && b + [] == b;
      TrimLeftPad(b, [], sp);
    } else {
      assert (s + b)[0] == s[0];
      TrimRightPad(s, b, sp);
    }
  }

  lemma {:induction false} TrimLeftPieces<T>(s: seq<T>, sp: T -> bool) returns (a: seq<T>)
    ensures s == a + TrimLeft(s, sp) && All(a, sp)
    ensures var r := TrimLeft(s, sp); r == [] || !sp(r[0])
  {
    if s != [] && sp(s[0]) {
      a := TrimLeftPieces(s[1..], sp);
      a := [s[0]] + a;
    } else {
      a := [];
    }
  }

  lemma {:induction false} TrimRightPieces<T>(s: seq<T>, sp: T -> bool) returns (b: seq<T>)
    ensures s == TrimRight(s, sp) + b && All(b, sp)
    ensures var r := TrimRight(s, sp); r == [] || !sp(r[|r| - 1])
  {
    if s != [] && sp(s[|s| - 1]) {
      b := TrimRightPieces(s[..|s| - 1], sp);
      b := b + [s[|s| - 1]];
    } else {
      b := [];
    }
  }

  lemma StripPieces<T>(s: seq<T>, sp: T -> bool) returns (a: seq<T>, b: seq<T>)
    ensures s == a + Strip(s, sp) + b
    ensures All(a, sp) && All(b, sp) && Tight(Strip(s, sp), sp)
  {
    a := TrimLeftPieces(s, sp);
    b := TrimRightPieces(TrimLeft(s, sp), sp);
    var t := TrimLeft(s, sp);
    var r := Strip(s, sp);
    if r != [] { assert r[0] == t[0]; }
  }

  // ---------- Decimal numbers ----------

  type Digit = d: nat | d < 10

  function Digits(n: nat): (ds: seq<Digit>)
    ensures ds != []
  {
    if n < 10 then [n] else Digits(n / 10) + [n % 10]
  }

  function Value(ds: seq<Digit>): nat {
    if ds == [] then 0 else 10 * Value(ds[..|ds| - 1]) + ds[|ds| - 1]
  }

  /** Writing a number and reading it back loses nothing. */
  lemma {:induction false} ValueOfDigits(n: nat)
    ensures Value(Digits(n)) == n
  {
    if n < 10 {
      assert Digits(n) == [n] && [n][..0] == [];
    } else {
      ValueOfDigits(n / 10);
      var ds := Digits(n);
      assert ds[..|ds| - 1] == Digits(n / 10);
    }
  }

  predicate IsDigit(c: char) { '0' <= c <= '9' }

  function DigitChar(d: Digit): (c: char)
    ensures IsDigit(c)
  {
    '0' + d as char
  }

  function CharDigit(c: char): (d: Digit)
    requires IsDigit(c)
    ensures DigitChar(d) == c
  {
    (c - '0') as nat
  }

  /** The usual decimal text of a number. */
  function Decimal(n: nat): (s: string)
    ensures s != "" && forall i :: 0 <= i < |s| ==> IsDigit(s[i])
  {
    var ds := Digits(n);
    seq(|ds|, i requires 0 <= i < |ds| => DigitChar(ds[i]))
  }

  function Number(s: string): nat
    requires forall i :: 0 <= i < |s| ==> IsDigit(s[i])
  {
    Value(seq(|s|, i requires 0 <= i < |s| => CharDigit(s[i])))
  }

  lemma NumberOfDecimal(n: nat)
    ensures Number(Decimal(n)) == n
  {
    var ds := Digits(n);
    var s := Decimal(n);
    assert seq(|s|, i requires 0 <= i < |s| => CharDigit(s[i])) == ds;
    ValueOfDigits(n);
  }

  lemma DecimalInjective(m: nat, n: nat)
    requires Decimal(m) == Decimal(n)
    ensures m == n
  {
    NumberOfDecimal(m);
    NumberOfDecimal(n);
  }
}
