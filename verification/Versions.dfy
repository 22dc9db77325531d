/** Image tags read as versions: the two tag patterns of the audit script, Python's
    order on version tuples, and the best stable tag of a registry listing. */
module Versions {
  import opened Order
  import opened Runs
  import opened Text

  type Version = seq<nat>

  predicate NotDigit(c: char) { !IsDigit(c) }

  function DropV(tag: string): string {
    if tag != "" && tag[0] == 'v' then tag[1..] else tag
  }

  /** At most `most` dot-separated runs of digits from the front, and what follows them. */
  function Components(s: string, most: nat): (r: (seq<string>, string))
    ensures Numerals(r.0)
    ensures |r.0| <= most
    decreases most
  {
    var n := Until(s, NotDigit);
    if n == 0 || most == 0 then ([], s)
    else if most > 1 && n + 1 < |s| && s[n] == '.' && IsDigit(s[n + 1]) then
      var r := Components(s[n + 1..], most - 1);
      ([s[..n]] + r.0, r.1)
    else ([s[..n]], s[n..])
  }

  predicate Numeral(s: string) {
    s != "" && forall i :: 0 <= i < |s| ==> IsDigit(s[i])
  }

  ghost predicate Numerals(ds: seq<string>) {
    forall i :: 0 <= i < |ds| ==> Numeral(ds[i])
  }

  /** Three or four numbers after an optional v, and nothing else. */
  predicate Stable(tag: string) {
    var r := Components(DropV(tag), 4);
    |r.0| >= 3 && r.1 == ""
  }

  function Numbers(ds: seq<string>): (v: Version)
    requires Numerals(ds)
    ensures |v| == |ds|
  {
    seq(|ds|, i requires 0 <= i < |ds| => assert Numeral(ds[i]); Number(ds[i]))
  }

  /** One to four numbers after an optional v, then nothing or a suffix opened by - or +. */
  function ParseVersion(tag: string): (v: Option<Version>)
    ensures v.Some? ==> 1 <= |v.value| <= 4
  {
    var r := Components(DropV(tag), 4);
    if r.0 == [] then None
    else if r.1 == "" || (r.1[0] in "-+" && '\n' !in r.1) then Some(Numbers(r.0))
    else None
  }

  // ---------- The tag patterns, stated by what they accept ----------

  function Dotted(ds: seq<string>): string {
    if ds == [] then "" else if |ds| == 1 then ds[0] else ds[0] + "." + Dotted(ds[1..])
  }

  /** `rest` cannot continue a dotted number; `room` says whether the number could have another part. */
  ghost predicate EndsNumber(rest: string, room: bool) {
    rest == "" || (!IsDigit(rest[0]) && !(room && |rest| > 1 && rest[0] == '.' && IsDigit(rest[1])))
  }

  lemma FirstNumeral(d: string, rest: string)
    requires Numeral(d) && (rest == "" || !IsDigit(rest[0]))
    ensures Until(d + rest, NotDigit) == |d|
    ensures (d + rest)[..|d|] == d && (d + rest)[|d|..] == rest
  {
    var s := d + rest;
    assert forall i :: 0 <= i < |d| ==> s[i] == d[i];
    UntilUnique(s, NotDigit, |d|);
  }

  /** Cutting `text` gives just these components and this rest. */
  ghost predicate Cuts(text: string, most: nat, ds: seq<string>, rest: string) {
    Components(text, most) == (ds, rest)
  }

  lemma {:induction false} ComponentsOfDotted(ds: seq<string>, rest: string, most: nat)
    requires 1 <= |ds| <= most && Numerals(ds)
    requires EndsNumber(rest, |ds| < most)
    ensures Cuts(Dotted(ds) + rest, most, ds, rest)
    decreases most
  {
    if |ds| == 1 {
      ComponentsLast(ds[0], rest, most);
      assert ds == [ds[0]];
    } else {
      var tail := DottedMore(ds, rest);
      var others := ds[1..];
      ComponentsOfDotted(others, rest, most - 1);
      CutsMore(ds[0], tail, most, others, rest);
      assert [ds[0]] + others == ds;
    }
  }

  lemma CutsMore(d: string, tail: string, most: nat, ds: seq<string>, rest: string)
    requires Numeral(d) && tail != "" && IsDigit(tail[0]) && most > 1 && Cuts(tail, most - 1, ds, rest)
    ensures Cuts(d + ("." + tail), most, [d] + ds, rest)
  {
    ComponentsMore(d, tail, most);
  }

  lemma ComponentsLast(d: string, rest: string, most: nat)
    requires Numeral(d) && most >= 1 && EndsNumber(rest, 1 < most)
    ensures Cuts(d + rest, most, [d], rest)
  {
    FirstNumeral(d, rest);
    assert |rest| > 1 ==> (d + rest)[|d| + 1] == rest[1];
  }

  lemma DottedMore(ds: seq<string>, rest: string) returns (tail: string)
    requires |ds| > 1 && Numerals(ds)
    ensures tail == Dotted(ds[1..]) + rest && tail != "" && IsDigit(tail[0])
    ensures Dotted(ds) + rest == ds[0] + ("." + tail)
  {
    tail := Dotted(ds[1..]) + rest;
    assert Numeral(ds[1]);
    assert ds[1..][0] == ds[1];
  }

  lemma ComponentsMore(d: string, tail: string, most: nat)
    requires Numeral(d) && tail != "" && IsDigit(tail[0]) && most > 1
    ensures var r := Components(tail, most - 1);
      Components(d + ("." + tail), most) == ([d] + r.0, r.1)
  {
    FirstNumeral(d, "." + tail);
    var s := d + ("." + tail);
    assert s[|d| + 1..] == tail;
    assert s[|d|] == '.' && s[|d| + 1] == tail[0];
  }

  lemma DottedCons(d: string, ds: seq<string>)
    requires ds != []
    ensures Dotted([d] + ds) == d + "." + Dotted(ds)
  {
    assert ([d] + ds)[1..] == ds;
  }

  lemma Around(s: string, n: nat, a: string, rest: string)
    requires n < |s| && s[n] == '.' && s[n + 1..] == a + rest
    ensures s == s[..n] + "." + a + rest
  {
    assert s == s[..n] + "." + s[n + 1..];
  }

  /** The components and what follows make up the text, and the last component is a whole number. */
  ghost predicate Covers(s: string, r: (seq<string>, string)) {
    s == Dotted(r.0) + r.1 && (r.0 != [] && r.1 != "" ==> !IsDigit(r.1[0]))
  }

  lemma CoversMore(s: string, n: nat, r: (seq<string>, string))
    requires n < |s| && s[n] == '.' && Covers(s[n + 1..], r) && r.0 != []
    ensures Covers(s, ([s[..n]] + r.0, r.1))
  {
    DottedCons(s[..n], r.0);
    Around(s, n, Dotted(r.0), r.1);
  }

  lemma {:induction false} ComponentsSound(s: string, most: nat)
    ensures Covers(s, Components(s, most))
    decreases most
  {
    var n := Until(s, NotDigit);
    if n == 0 || most == 0 {
      CoversEnd(s, n);
    } else if most > 1 && n + 1 < |s| && s[n] == '.' && IsDigit(s[n + 1]) {
      var r := Components(s[n + 1..], most - 1);
      ComponentsSound(s[n + 1..], most - 1);
      assert s[n + 1..][0] == s[n + 1] && r.0 != [];
      CoversMore(s, n, r);
    } else {
      CoversEnd(s, n);
    }
  }

  lemma CoversEnd(s: string, n: nat)
    requires n <= |s| && (n < |s| ==> !IsDigit(s[n]))
    ensures Covers(s, ([s[..n]], s[n..])) && Covers(s, ([], s))
  {
    assert Dotted([s[..n]]) == s[..n] && s == s[..n] + s[n..];
    assert Dotted([]) + s == s;
  }

  /** `tag` is `ds` joined by dots, with or without a leading v. */
  ghost predicate Spells(tag: string, ds: seq<string>) {
    && Numerals(ds)
    && (tag == Dotted(ds) || tag == "v" + Dotted(ds))
  }

  /** The stable pattern accepts exactly three or four dotted numerals behind an optional v. */
  lemma StableMeaning(tag: string)
    ensures Stable(tag) <==> exists ds: seq<string> :: 3 <= |ds| <= 4 && Spells(tag, ds)
  {
    if Stable(tag) { var ds := StableParts(tag); }
    forall ds: seq<string> | 3 <= |ds| <= 4 && Spells(tag, ds) ensures Stable(tag) {
      SpelledParses(tag, ds, "");
      assert tag + "" == tag;
    }
  }

  /** What may follow the numbers: nothing, or anything on the line behind a minus or a plus. */
  predicate IsSuffix(suffix: string) { suffix == "" || (suffix[0] in "-+" && '\n' !in suffix) }

  /** A spelled version parses to the numbers that were spelled, whatever their leading zeros and suffix; it is stable
      exactly when it has three or four numbers and no suffix. */
  lemma SpelledParses(tag: string, ds: seq<string>, suffix: string)
    requires 1 <= |ds| <= 4 && Spells(tag, ds) && IsSuffix(suffix)
    ensures ParseVersion(tag + suffix) == Some(Numbers(ds))
    ensures Stable(tag + suffix) <==> |ds| >= 3 && suffix == ""
  {
    DropVSpelled(tag, ds, suffix);
    ComponentsOfDotted(ds, suffix, 4);
  }

  lemma DropVSpelled(tag: string, ds: seq<string>, suffix: string)
    requires ds != [] && Spells(tag, ds)
    ensures DropV(tag + suffix) == Dotted(ds) + suffix
  {
    var body := Dotted(ds);
    assert Numeral(ds[0]);
    assert body[0] == ds[0][0];
    assert (tag + suffix)[0] == tag[0];
    assert ("v" + body + suffix)[1..] == body + suffix;
  }

  /** The numerals a stable tag is made of. */
  lemma StableParts(tag: string) returns (ds: seq<string>)
    requires Stable(tag)
    ensures 3 <= |ds| <= 4 && Spells(tag, ds)
  {
    var r := Components(DropV(tag), 4);
    ComponentsSound(DropV(tag), 4);
    assert Dotted(r.0) + "" == Dotted(r.0);
    DropVShape(tag);
    ds := r.0;
  }

  lemma SpelledShape(tag: string, ds: seq<string>)
    requires ds != [] && Spells(tag, ds)
    ensures tag != "" && IsDigit(tag[|tag| - 1])
    ensures forall i :: 0 <= i < |tag| ==> IsDigit(tag[i]) || tag[i] == '.' || tag[i] == 'v'
  {
    DottedShape(ds);
  }

  /** A stable tag ends in a digit, has no separator characters, and always parses. */
  lemma StableShape(tag: string)
    requires Stable(tag)
    ensures tag != "" && IsDigit(tag[|tag| - 1])
    ensures forall i :: 0 <= i < |tag| ==> IsDigit(tag[i]) || tag[i] == '.' || tag[i] == 'v'
    ensures ParseVersion(tag).Some? && |ParseVersion(tag).value| >= 3
  {
    var ds := StableParts(tag);
    SpelledShape(tag, ds);
    SpelledParses(tag, ds, "");
    assert tag + "" == tag;
  }

  lemma DropVShape(tag: string)
    ensures tag == DropV(tag) || tag == "v" + DropV(tag)
  {
  }

  lemma {:induction false} DottedShape(ds: seq<string>)
    requires ds != [] && Numerals(ds)
    ensures var s := Dotted(ds);
      && s != "" && IsDigit(s[|s| - 1])
      && forall i :: 0 <= i < |s| ==> IsDigit(s[i]) || s[i] == '.'
  {
    assert Numeral(ds[0]);
    if |ds| > 1 { DottedShape(ds[1..]); }
  }

  // ---------- The best tag of a listing ----------

  datatype Release = Release(tag: string, version: Version)

  /** What the fetch loop reads from a tag; None for the tags it passes over. */
  function StableVersion(tag: string): (v: Option<Version>)
    ensures v.Some? <==> Stable(tag)
  {
    if Stable(tag) then StableShape(tag); ParseVersion(tag) else None
  }

  /** One turn of the fetch loop: keep the best so far unless this tag is stable and newer. */
  function Better(best: Option<Release>, tag: string): Option<Release> {
    var v := StableVersion(tag);
    if v.Some? && (best.None? || Less(best.value.version, v.value)) then Some(Release(tag, v.value))
    else best
  }

  /** The best after looking at the tags one by one. */
  function Best(best: Option<Release>, tags: seq<string>): Option<Release> { RunOf(best, tags, Better) }

  lemma BestNext(best: Option<Release>, tags: seq<string>, i: nat)
    requires i < |tags|
    ensures Best(best, tags[..i + 1]) == Better(Best(best, tags[..i]), tags[i])
  {
    RunOfNext(best, tags, i, Better);
  }

  lemma BestAppend(best: Option<Release>, a: seq<string>, b: seq<string>)
    ensures Best(best, a + b) == Best(Best(best, a), b)
  {
    RunOfAppend(best, a, b, Better);
  }

  /** `r` is a stable tag of the listing that nothing beats and that nothing before it equals. */
  ghost predicate FirstGreatest(tags: seq<string>, r: Release, k: nat) {
    && k < |tags| && r.tag == tags[k] && StableVersion(tags[k]) == Some(r.version)
    && (forall j :: 0 <= j < |tags| && StableVersion(tags[j]).Some? ==> !Less(r.version, StableVersion(tags[j]).value))
    && (forall j :: 0 <= j < k ==> StableVersion(tags[j]) != Some(r.version))
  }

  ghost predicate NoneStable(tags: seq<string>) {
    forall j :: 0 <= j < |tags| ==> StableVersion(tags[j]).None?
  }

  lemma {:induction false} BestIsFirstGreatest(tags: seq<string>)
    ensures Best(None, tags).None? <==> NoneStable(tags)
    ensures Best(None, tags).Some? ==> exists k: nat :: FirstGreatest(tags, Best(None, tags).value, k)
  {
    if tags != [] {
      var front, last := tags[..|tags| - 1], tags[|tags| - 1];
      assert tags == front + [last] && tags[..|tags|] == tags;
      BestNext(None, tags, |tags| - 1);
      BestIsFirstGreatest(front);
      BestStep(front, last, Best(None, front));
    }
  }

  lemma NoneStableMore(front: seq<string>, last: string)
    ensures NoneStable(front + [last]) <==> NoneStable(front) && StableVersion(last).None?
  {
    var tags := front + [last];
    assert tags[|front|] == last && forall j :: 0 <= j < |front| ==> tags[j] == front[j];
  }

  lemma FirstStable(front: seq<string>, last: string)
    requires NoneStable(front) && StableVersion(last).Some?
    ensures FirstGreatest(front + [last], Release(last, StableVersion(last).value), |front|)
  {
    LessTrichotomy(StableVersion(last).value, StableVersion(last).value);
  }

  lemma StillGreatest(front: seq<string>, last: string, best: Release, k: nat)
    requires FirstGreatest(front, best, k)
    requires StableVersion(last).Some? ==> !Less(best.version, StableVersion(last).value)
    ensures FirstGreatest(front + [last], best, k)
  {
  }

  lemma BestStep(front: seq<string>, last: string, best: Option<Release>)
    requires best.None? <==> NoneStable(front)
    requires best.Some? ==> exists k: nat :: FirstGreatest(front, best.value, k)
    ensures var r, tags := Better(best, last), front + [last];
      && (r.None? <==> NoneStable(tags))
      && (r.Some? ==> exists k: nat :: FirstGreatest(tags, r.value, k))
  {
    NoneStableMore(front, last);
    var v := StableVersion(last);
    if best.None? {
      if v.Some? { FirstStable(front, last); }
    } else {
      var k: nat :| FirstGreatest(front, best.value, k);
      if v.Some? && Less(best.value.version, v.value) {
        Overtaken(front, last, best.value, k);
      } else {
        StillGreatest(front, last, best.value, k);
      }
    }
  }

  lemma Overtaken(front: seq<string>, last: string, best: Release, k: nat)
    requires FirstGreatest(front, best, k) && StableVersion(last).Some?
    requires Less(best.version, StableVersion(last).value)
    ensures FirstGreatest(front + [last], Release(last, StableVersion(last).value), |front|)
  {
    var v := StableVersion(last).value;
    LessTrichotomy(v, v);
    forall j | 0 <= j < |front| && StableVersion(front[j]).Some?
      ensures !Less(v, StableVersion(front[j]).value) && StableVersion(front[j]).value != v
    {
      var w := StableVersion(front[j]).value;
      if Less(v, w) { LessTransitive(best.version, v, w); }
    }
  }
}
