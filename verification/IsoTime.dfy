/** ISO timestamps as the scripts write them, and how their text order relates to the order of time. */
module IsoTime {
  import opened Order

  /** A UTC instant to the microsecond. */
  datatype Instant = Instant(year: nat, month: nat, day: nat, hour: nat, minute: nat, second: nat, micro: nat) {
    predicate Valid() {
      && 1 <= year <= 9999 && 1 <= month <= 12 && 1 <= day <= 31
      && hour < 24 && minute < 60 && second < 60 && micro < 1_000_000
    }

    /** Time order: the first field that differs decides. */
    predicate Before(other: Instant) {
      Less(Fields() + [micro], other.Fields() + [other.micro])
    }

    /** Down to the second. */
    function Fields(): seq<nat> { [year, month, day, hour, minute, second] }

    predicate SameSecond(other: Instant) { Fields() == other.Fields() }
  }

  /** Text order, as SQLite's default collation compares ASCII text: a proper prefix comes first. */
  predicate TextLess(a: string, b: string) {
    if b == "" then false
    else if a == "" then true
    else a[0] < b[0] || (a[0] == b[0] && TextLess(a[1..], b[1..]))
  }

  function Digit(n: nat): char
    requires n < 10
  {
    '0' + n as char
  }

  /** A number in exactly `width` decimal digits. */
  function Padded(n: nat, width: nat): (s: string)
    ensures |s| == width
    decreases width
  {
    if width == 0 then "" else Padded(n / 10, width - 1) + [Digit(n % 10)]
  }

  /** A field of a stamp: a number in a fixed width, and what is written behind it. */
  datatype Part = Part(value: nat, width: nat, mark: string)

  function Render(parts: seq<Part>): string {
    if parts == [] then "" else Padded(parts[0].value, parts[0].width) + (parts[0].mark + Render(parts[1..]))
  }

  /** YYYY-MM-DDTHH:MM:SS */
  function Stamp(t: Instant): seq<Part> {
    [Part(t.year, 4, "-"), Part(t.month, 2, "-"), Part(t.day, 2, "T"),
     Part(t.hour, 2, ":"), Part(t.minute, 2, ":"), Part(t.second, 2, "")]
  }

  /** The fraction is left out when it is zero. */
  function Fraction(micro: nat): string {
    if micro == 0 then "" else "." + Padded(micro, 6)
  }

  function Iso(t: Instant): string { Render(Stamp(t)) + (Fraction(t.micro) + "Z") }

  /** A text comes first exactly when it is a proper prefix or smaller where the two first differ. */
  lemma {:induction false} TextLessMeaning(a: string, b: string)
    ensures TextLess(a, b) <==> (|a| < |b| && a == b[..|a|]) || exists k: nat :: SmallerAt(a, b, k)
  {
    if a != "" && b != "" {
      var s, t := a[1..], b[1..];
      TextLessMeaning(s, t);
      assert a == [a[0]] + s && b == [b[0]] + t;
      forall k: nat ensures SmallerAt(a, b, k + 1) <==> a[0] == b[0] && SmallerAt(s, t, k) {
        if k < |s| && k < |t| { assert a[..k + 1] == [a[0]] + s[..k] && b[..k + 1] == [b[0]] + t[..k]; }
      }
      if TextLess(a, b) {
        if a[0] < b[0] { assert SmallerAt(a, b, 0); }
        else if k: nat :| SmallerAt(s, t, k) { assert SmallerAt(a, b, k + 1); }
        else { assert b[..|a|] == [b[0]] + t[..|s|]; }
      }
      if k: nat :| SmallerAt(a, b, k) {
        if k > 0 { assert SmallerAt(s, t, k - 1) by { assert SmallerAt(a, b, k - 1 + 1); } }
      }
      if |a| < |b| && a == b[..|a|] { assert a[0] == b[0] && s == t[..|s|]; }
    }
  }

  ghost predicate SmallerAt(a: string, b: string, k: nat) {
    k < |a| && k < |b| && a[..k] == b[..k] && a[k] < b[k]
  }

  lemma RenderMore(p: Part, rest: seq<Part>)
    ensures Render([p] + rest) == Padded(p.value, p.width) + (p.mark + Render(rest))
  {
    assert ([p] + rest)[1..] == rest;
  }

  lemma RenderSix(a: Part, b: Part, c: Part, d: Part, e: Part, f: Part)
    ensures Render([a, b, c, d, e, f]) ==
      Padded(a.value, a.width) + (a.mark + (Padded(b.value, b.width) + (b.mark + (Padded(c.value, c.width) + (c.mark +
      (Padded(d.value, d.width) + (d.mark + (Padded(e.value, e.width) + (e.mark + (Padded(f.value, f.width) +
      (f.mark + "")))))))))))
  {
    RenderMore(f, []);
    RenderMore(e, [f]);
    RenderMore(d, [e, f]);
    RenderMore(c, [d, e, f]);
    RenderMore(b, [c, d, e, f]);
    RenderMore(a, [b, c, d, e, f]);
    assert [f] + [] == [f] && [e] + [f] == [e, f] && [d] + [e, f] == [d, e, f];
    assert [c] + [d, e, f] == [c, d, e, f] && [b] + [c, d, e, f] == [b, c, d, e, f];
    assert [a] + [b, c, d, e, f] == [a, b, c, d, e, f];
  }

  /** What an instant looks like: fields of fixed width with their separators, a fraction if there is one, and a Z. */
  lemma IsoShape(t: Instant)
    ensures var stamp := Padded(t.year, 4) + ("-" + (Padded(t.month, 2) + ("-" + (Padded(t.day, 2) + ("T" +
        (Padded(t.hour, 2) + (":" + (Padded(t.minute, 2) + (":" + (Padded(t.second, 2) + ("" + "")))))))))));
      Iso(t) == stamp + (if t.micro == 0 then "Z" else "." + Padded(t.micro, 6) + "Z")
  {
    var p := Stamp(t);
    RenderSix(p[0], p[1], p[2], p[3], p[4], p[5]);
    assert p == [p[0], p[1], p[2], p[3], p[4], p[5]];
  }

  // ---------- Text order on fixed-width pieces ----------

  lemma {:induction false} TextIrreflexive(s: string)
    ensures !TextLess(s, s)
  {
    if s != "" { TextIrreflexive(s[1..]); }
  }

  /** With equal lengths in front, the front decides unless it is equal. */
  lemma {:induction false} TextByPieces(a: string, b: string, a': string, b': string)
    requires |a| == |b|
    ensures TextLess(a + a', b + b') == (TextLess(a, b) || (a == b && TextLess(a', b')))
  {
    if a == "" {
      assert a + a' == a' && b + b' == b';
    } else {
      assert (a + a')[1..] == a[1..] + a' && (b + b')[1..] == b[1..] + b';
      TextByPieces(a[1..], b[1..], a', b');
      assert a == b <==> a[0] == b[0] && a[1..] == b[1..] by {
        assert a == [a[0]] + a[1..] && b == [b[0]] + b[1..];
      }
    }
  }

  function Pow10(k: nat): nat { if k == 0 then 1 else 10 * Pow10(k - 1) }

  /** Padded numbers compare as numbers and are equal only when the numbers are. */
  lemma {:induction false} PaddedOrder(m: nat, n: nat, width: nat)
    requires m < Pow10(width) && n < Pow10(width)
    ensures TextLess(Padded(m, width), Padded(n, width)) <==> m < n
    ensures Padded(m, width) == Padded(n, width) <==> m == n
  {
    if width > 0 {
      PaddedOrder(m / 10, n / 10, width - 1);
      var a, b := Padded(m / 10, width - 1), Padded(n / 10, width - 1);
      var x, y := [Digit(m % 10)], [Digit(n % 10)];
      TextByPieces(a, b, x, y);
      assert TextLess(x, y) <==> m % 10 < n % 10 by { assert x[1..] == "" && y[1..] == ""; }
      assert Padded(m, width)[..width - 1] == a && Padded(n, width)[..width - 1] == b;
      assert Padded(m, width)[width - 1] == x[0] && Padded(n, width)[width - 1] == y[0];
      assert m == 10 * (m / 10) + m % 10 && n == 10 * (n / 10) + n % 10;
    }
  }

  /** One field in front: text and numbers agree when what follows agrees. */
  lemma FieldOrder(m: nat, n: nat, width: nat, a: string, b: string)
    requires m < Pow10(width) && n < Pow10(width)
    ensures TextLess(Padded(m, width) + a, Padded(n, width) + b) <==> m < n || (m == n && TextLess(a, b))
  {
    PaddedOrder(m, n, width);
    TextByPieces(Padded(m, width), Padded(n, width), a, b);
  }

  lemma SeparatorOrder(c: string, a: string, b: string)
    ensures TextLess(c + a, c + b) == TextLess(a, b)
  {
    TextIrreflexive(c);
    TextByPieces(c, c, a, b);
  }

  lemma Widths()
    ensures Pow10(2) == 100 && Pow10(4) == 10000 && Pow10(6) == 1_000_000
  {
    assert Pow10(0) == 1 && Pow10(1) == 10 && Pow10(2) == 100 && Pow10(3) == 1000 && Pow10(4) == 10000
      && Pow10(5) == 100000;
  }

  // ---------- Whole stamps ----------

  function Values(parts: seq<Part>): (v: seq<nat>)
    ensures |v| == |parts|
  {
    seq(|parts|, i requires 0 <= i < |parts| => parts[i].value)
  }

  ghost predicate Alike(p: seq<Part>, q: seq<Part>) {
    && |p| == |q|
    && forall i :: 0 <= i < |p| ==>
         && p[i].width == q[i].width && p[i].mark == q[i].mark
         && p[i].value < Pow10(p[i].width) && q[i].value < Pow10(q[i].width)
  }

  lemma RenderCons(p: seq<Part>, a: string)
    requires p != []
    ensures Render(p) + a == Padded(p[0].value, p[0].width) + (p[0].mark + (Render(p[1..]) + a))
  {
    Regroup(Padded(p[0].value, p[0].width), p[0].mark, Render(p[1..]), a);
  }

  lemma Regroup(x: string, y: string, z: string, a: string)
    ensures x + (y + z) + a == x + (y + (z + a))
  {
  }

  lemma ValuesCons(p: seq<Part>)
    requires p != []
    ensures Values(p) == [p[0].value] + Values(p[1..])
  {
  }

  /** Stamps of the same shape compare as their fields do; what follows decides between equal ones. */
  lemma {:induction false} RenderOrder(p: seq<Part>, q: seq<Part>, a: string, b: string)
    requires Alike(p, q)
    ensures TextLess(Render(p) + a, Render(q) + b) <==>
      Less(Values(p), Values(q)) || (Values(p) == Values(q) && TextLess(a, b))
  {
    if p == [] {
      assert Render(p) + a == a && Render(q) + b == b;
    } else {
      RenderCons(p, a);
      RenderCons(q, b);
      ValuesCons(p);
      ValuesCons(q);
      var m, n, w, c := p[0].value, q[0].value, p[0].width, p[0].mark;
      var x, y := Render(p[1..]) + a, Render(q[1..]) + b;
      FieldOrder(m, n, w, c + x, c + y);
      SeparatorOrder(c, x, y);
      RenderOrder(p[1..], q[1..], a, b);
      LessCons(m, n, Values(p[1..]), Values(q[1..]));
    }
  }

  lemma FractionOrder(x: nat, y: nat)
    requires x < 1_000_000 && y < 1_000_000
    ensures TextLess(Fraction(x) + "Z", Fraction(y) + "Z") <==> (if (x == 0) == (y == 0) then x < y else y == 0)
  {
    Widths();
    if x > 0 && y > 0 {
      assert Fraction(x) + "Z" == "." + (Padded(x, 6) + "Z") && Fraction(y) + "Z" == "." + (Padded(y, 6) + "Z");
      SeparatorOrder(".", Padded(x, 6) + "Z", Padded(y, 6) + "Z");
      FieldOrder(x, y, 6, "Z", "Z");
      TextIrreflexive("Z");
    } else if x == 0 && y == 0 {
      TextIrreflexive("Z");
    }
  }

  /** Exactly one of two instants of the same second has a zero fraction. */
  predicate Odd(a: Instant, b: Instant) {
    a.SameSecond(b) && (a.micro == 0) != (b.micro == 0)
  }

  /** Text order is time order, except within one second when exactly one fraction is zero: there it is reversed. */
  lemma IsoOrder(a: Instant, b: Instant)
    requires a.Valid() && b.Valid()
    ensures TextLess(Iso(a), Iso(b)) <==> if Odd(a, b) then b.Before(a) else a.Before(b)
  {
    Widths();
    var p, q := Stamp(a), Stamp(b);
    assert Values(p) == a.Fields() && Values(q) == b.Fields();
    RenderOrder(p, q, Fraction(a.micro) + "Z", Fraction(b.micro) + "Z");
    FractionOrder(a.micro, b.micro);
    LessLast(a.Fields(), b.Fields(), a.micro, b.micro);
    LessLast(b.Fields(), a.Fields(), b.micro, a.micro);
    if a.SameSecond(b) { LessTrichotomy(a.Fields(), a.Fields()); }
  }

  /** Comparing texts agrees with comparing instants exactly outside that case. */
  lemma IsoAgrees(a: Instant, b: Instant)
    requires a.Valid() && b.Valid()
    ensures (TextLess(Iso(a), Iso(b)) <==> a.Before(b)) <==> !Odd(a, b)
  {
    IsoOrder(a, b);
    LessTrichotomy(a.Fields() + [a.micro], b.Fields() + [b.micro]);
    if Odd(a, b) {
      assert (a.Fields() + [a.micro])[6] == a.micro && (b.Fields() + [b.micro])[6] == b.micro;
    }
  }

  /** Different instants have different texts. */
  lemma IsoInjective(a: Instant, b: Instant)
    requires a.Valid() && b.Valid() && Iso(a) == Iso(b)
    ensures a == b
  {
    IsoOrder(a, b);
    IsoOrder(b, a);
    TextIrreflexive(Iso(a));
    LessTrichotomy(a.Fields() + [a.micro], b.Fields() + [b.micro]);
    assert a.Fields() + [a.micro] == b.Fields() + [b.micro];
    assert (a.Fields() + [a.micro])[0] == a.year && (a.Fields() + [a.micro])[1] == a.month
      && (a.Fields() + [a.micro])[2] == a.day;
    assert (a.Fields() + [a.micro])[3] == a.hour && (a.Fields() + [a.micro])[4] == a.minute
      && (a.Fields() + [a.micro])[5] == a.second;
    assert (a.Fields() + [a.micro])[6] == a.micro;
  }
}
