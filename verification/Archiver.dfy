/** Moving old lines of a newline-delimited history file to cold files by date: what one run does, what several runs do,
    and what is left after runs that stop half way. */
module Archiver {
  import opened Text
  import opened Lists

  /** What the run does not decide itself: white space, the instant a line carries if it carries one, and its date. */
  datatype Format = Format(space: char -> bool, at: string -> Option<int>, day: int -> int)

  /** One line appended to the cold file of a date. */
  datatype Write = Write(day: int, line: string)

  /** The hot file's text, and everything appended to the cold directory so far; the file of a date is the part with
      that date, in order. */
  datatype Store = Store(hot: string, cold: seq<Write>)

  function Clean(raw: string, f: Format): string { Strip(raw, f.space) }

  function Lines(text: string): seq<string> { SplitKeep(text, IsNewline) }

  predicate Old(line: string, cutoff: int, f: Format) {
    f.at(line).Some? && f.at(line).value < cutoff
  }

  function Stays(cutoff: int, f: Format): string -> bool { (line: string) => !Old(line, cutoff, f) }

  /** A line with a time is written back trimmed; one without is written back as it was. */
  function Rewritten(raw: string, f: Format): string {
    if f.at(Clean(raw, f)).None? then raw else Clean(raw, f) + "\n"
  }

  function Kept(raws: seq<string>, cutoff: int, f: Format): seq<string> {
    if raws == [] then []
    else
      var rest := Kept(raws[1..], cutoff, f);
      if Clean(raws[0], f) == "" || Old(Clean(raws[0], f), cutoff, f) then rest else [Rewritten(raws[0], f)] + rest
  }

  /** The trimmed lines that are not blank. */
  function Reading(raws: seq<string>, f: Format): seq<string> {
    if raws == [] then []
    else
      var rest := Reading(raws[1..], f);
      if Clean(raws[0], f) == "" then rest else [Clean(raws[0], f)] + rest
  }

  function Content(text: string, f: Format): seq<string> { Reading(Lines(text), f) }

  function Outgo(line: string, f: Format): Write
    requires f.at(line).Some?
  {
    Write(f.day(f.at(line).value), line + "\n")
  }

  /** The old lines with their dates, in file order. */
  function Moved(lines: seq<string>, cutoff: int, f: Format): seq<Write> {
    if lines == [] then []
    else
      var rest := Moved(lines[1..], cutoff, f);
      if Old(lines[0], cutoff, f) then [Outgo(lines[0], f)] + rest else rest
  }

  function On(day: int): Write -> bool { (w: Write) => w.day == day }

  /** The dates in order of first appearance. */
  function Days(ws: seq<Write>): seq<int> {
    if ws == [] then []
    else
      var days := Days(ws[..|ws| - 1]);
      if ws[|ws| - 1].day in days then days else days + [ws[|ws| - 1].day]
  }

  /** All lines of the first date, then all of the second, and so on. */
  function Flush(days: seq<int>, ws: seq<Write>): seq<Write> {
    if days == [] then [] else Filter(ws, On(days[0])) + Flush(days[1..], ws)
  }

  function Grouped(ws: seq<Write>): seq<Write> { Flush(Days(ws), ws) }

  function Hot(text: string, cutoff: int, f: Format): string { Concat(Kept(Lines(text), cutoff, f)) }

  function Outgoing(text: string, cutoff: int, f: Format): seq<Write> { Moved(Content(text, f), cutoff, f) }

  /** All the writes, or the first ones when the run stops. */
  function Cut(writes: seq<Write>, stop: Option<nat>): seq<Write> {
    if stop.Some? && stop.value <= |writes| then writes[..stop.value] else writes
  }

  /** A run that completes, or one that stops after `stop` of its appends and before replacing the hot file. */
  function AfterRun(s: Store, cutoff: int, stop: Option<nat>, f: Format): Store {
    Store(if stop.None? then Hot(s.hot, cutoff, f) else s.hot, s.cold + Cut(Grouped(Outgoing(s.hot, cutoff, f)), stop))
  }

  // ---------- The run itself ----------

  lemma {:induction false} FlushIsConcat(days: seq<int>, ws: seq<Write>, parts: seq<seq<Write>>)
    requires |parts| == |days| && forall j :: 0 <= j < |days| ==> parts[j] == Filter(ws, On(days[j]))
    ensures Flush(days, ws) == Concat(parts)
  {
    if days != [] { FlushIsConcat(days[1..], ws, parts[1..]); }
  }

  lemma ConcatFrom(done: seq<Write>, parts: seq<seq<Write>>, j: nat)
    requires j < |parts|
    ensures done + Concat(parts[j..]) == done + (parts[j] + Concat(parts[j + 1..]))
    ensures done + Concat(parts[j..]) == done + parts[j] + Concat(parts[j + 1..])
  {
    assert parts[j..][1..] == parts[j + 1..];
  }

  lemma CutInside(before: seq<Write>, a: seq<Write>, b: seq<Write>, c: seq<Write>, n: nat)
    requires n <= |b|
    ensures before + a + Cut(b, Some(n)) == before + Cut(a + (b + c), Some(|a| + n))
  {
    assert Cut(a + (b + c), Some(|a| + n)) == a + Cut(b, Some(n));
  }

  lemma CutNothing(a: seq<Write>, stop: Option<nat>)
    requires stop.Some? ==> |a| <= stop.value
    ensures Cut(a, stop) == a
  {
  }

  lemma FilterLast(ws: seq<Write>, w: Write, day: int)
    ensures Filter(ws + [w], On(day)) == if w.day == day then Filter(ws, On(day)) + [w] else Filter(ws, On(day))
  {
    FilterAppend(ws, [w], On(day));
    assert Filter([w], On(day)) == if w.day == day then [w] else [] by { assert [w][1..] == []; }
  }

  class Files {
    var hot: string
    var cold: seq<Write>

    constructor (hot: string, cold: seq<Write>)
      ensures this.hot == hot && this.cold == cold
    {
      this.hot, this.cold := hot, cold;
    }

    /** Appends lines one by one, unless the run stops first: `left` is how many appends it still makes. */
    method AppendLines(lines: seq<Write>, left: Option<nat>) returns (ok: bool)
      modifies this`cold
      ensures ok <==> left.None? || |lines| <= left.value
      ensures cold == old(cold) + Cut(lines, left)
    {
      var k := 0;
      while k < |lines|
        invariant k <= |lines| && cold == old(cold) + lines[..k]
        invariant left.Some? ==> k <= left.value
      {
        if left.Some? && k == left.value {
          return false;
        }
        assert lines[..k + 1] == lines[..k] + [lines[k]];
        cold := cold + [lines[k]];
        k := k + 1;
      }
      assert lines[..k] == lines;
      return true;
    }

    /** Appends bucket by bucket. */
    method AppendBuckets(parts: seq<seq<Write>>, stop: Option<nat>)
      modifies this`cold
      ensures cold == old(cold) + Cut(Concat(parts), stop)
    {
      var j, left: Option<nat> := 0, stop;
      ghost var done := [];
      while j < |parts|
        invariant j <= |parts| && done + Concat(parts[j..]) == Concat(parts) && cold == old(cold) + done
        invariant left.Some? == stop.Some? && (stop.Some? ==> left.value + |done| == stop.value)
      {
        ConcatFrom(done, parts, j);
        var ok := AppendLines(parts[j], left);
        if !ok {
          CutInside(old(cold), done, parts[j], Concat(parts[j + 1..]), left.value);
          return;
        }
        CutNothing(parts[j], left);
        assert old(cold) + done + parts[j] == old(cold) + (done + parts[j]);
        done := done + parts[j];
        left := if left.Some? then Some(left.value - |parts[j]|) else None;
        j := j + 1;
      }
      CutNothing(done, stop);
      assert done == Concat(parts);
    }

    /** Reads the hot file once, then appends the buckets, then replaces the hot file. */
    method ArchiveFile(cutoff: int, stop: Option<nat>, f: Format) returns (moved: nat, kept: nat)
      modifies this
      ensures Store(hot, cold) == AfterRun(Store(old(hot), old(cold)), cutoff, stop, f)
      ensures moved == |Outgoing(old(hot), cutoff, f)| && kept == |Kept(Lines(old(hot)), cutoff, f)|
    {
      var keep, order, buckets, count := Partition(Lines(hot), cutoff, f);
      moved, kept := count, |keep|;
      var parts := seq(|order|, j requires 0 <= j < |order| && order[j] in buckets => buckets[order[j]]);
      FlushIsConcat(order, Outgoing(hot, cutoff, f), parts);
      AppendBuckets(parts, stop);
      if stop.None? {
        hot := Join(keep);
      }
    }

    method Join(lines: seq<string>) returns (text: string)
      ensures text == Concat(lines)
    {
      text := "";
      var i := 0;
      while i < |lines|
        invariant i <= |lines| && text + Concat(lines[i..]) == Concat(lines)
      {
        text := text + lines[i];
        i := i + 1;
      }
    }
  }

  /** A bucket for each date, in order of first use, holding the date's lines in order. */
  ghost predicate Sorted(order: seq<int>, buckets: map<int, seq<Write>>, out: seq<Write>) {
    && order == Days(out)
    && (forall i :: 0 <= i < |order| ==> order[i] in buckets && buckets[order[i]] == Filter(out, On(order[i])))
    && (forall d :: d in buckets ==> d in order)
  }

  method Put(order: seq<int>, buckets: map<int, seq<Write>>, w: Write, ghost out: seq<Write>)
    returns (order': seq<int>, buckets': map<int, seq<Write>>)
    requires Sorted(order, buckets, out)
    ensures Sorted(order', buckets', out + [w])
  {
    assert (out + [w])[..|out|] == out;
    forall d ensures Filter(out + [w], On(d)) == if w.day == d then Filter(out, On(d)) + [w] else Filter(out, On(d)) {
      FilterLast(out, w, d);
    }
    if w.day in buckets {
      order', buckets' := order, buckets[w.day := buckets[w.day] + [w]];
    } else {
      NoneOn(out, w.day) by { assert forall i :: 0 <= i < |order| ==> order[i] in buckets; }
      order', buckets' := order + [w.day], buckets[w.day := [w]];
    }
  }

  /** What the lines from `i` on add to what has been kept and moved so far. */
  ghost predicate Progress(raws: seq<string>, i: nat, keep: seq<string>, out: seq<Write>, cutoff: int, f: Format) {
    && i <= |raws|
    && keep + Kept(raws[i..], cutoff, f) == Kept(raws, cutoff, f)
    && out + Moved(Reading(raws[i..], f), cutoff, f) == Moved(Reading(raws, f), cutoff, f)
  }

  lemma NextRaw(raws: seq<string>, i: nat, keep: seq<string>, out: seq<Write>, cutoff: int, f: Format)
    requires i < |raws| && Progress(raws, i, keep, out, cutoff, f)
    ensures var line := Clean(raws[i], f);
      if line == "" then Progress(raws, i + 1, keep, out, cutoff, f)
      else if Old(line, cutoff, f) then Progress(raws, i + 1, keep, out + [Outgo(line, f)], cutoff, f)
      else Progress(raws, i + 1, keep + [Rewritten(raws[i], f)], out, cutoff, f)
  {
    var line := Clean(raws[i], f);
    assert raws[i..][0] == raws[i] && raws[i..][1..] == raws[i + 1..];
    if line != "" { MovedCons(line, Reading(raws[i + 1..], f), cutoff, f); }
  }

  lemma MovedCons(line: string, rest: seq<string>, cutoff: int, f: Format)
    ensures Moved([line] + rest, cutoff, f) ==
      (if Old(line, cutoff, f) then [Outgo(line, f)] else []) + Moved(rest, cutoff, f)
  {
    assert ([line] + rest)[1..] == rest;
  }

  /** The reading loop: lines to keep, and lines to move by date. */
  method Partition(raws: seq<string>, cutoff: int, f: Format)
    returns (keep: seq<string>, order: seq<int>, buckets: map<int, seq<Write>>, count: nat)
    ensures keep == Kept(raws, cutoff, f)
    ensures var out := Moved(Reading(raws, f), cutoff, f); count == |out| && Sorted(order, buckets, out)
  {
    keep, order, buckets, count := [], [], map[], 0;
    ghost var out: seq<Write> := [];
    var i := 0;
    while i < |raws|
      invariant Progress(raws, i, keep, out, cutoff, f)
      invariant count == |out| && Sorted(order, buckets, out)
    {
      var line := Clean(raws[i], f);
      NextRaw(raws, i, keep, out, cutoff, f);
      if line != "" {
        if Old(line, cutoff, f) {
          order, buckets := Put(order, buckets, Outgo(line, f), out);
          out := out + [Outgo(line, f)];
          count := count + 1;
        } else {
          keep := keep + [Rewritten(raws[i], f)];
        }
      }
      i := i + 1;
    }
    assert raws[i..] == [];
    assert out == Moved(Reading(raws, f), cutoff, f);
  }

  lemma {:induction false} DaysCover(ws: seq<Write>)
    ensures forall i :: 0 <= i < |ws| ==> ws[i].day in Days(ws)
    ensures forall i, j :: 0 <= i < j < |Days(ws)| ==> Days(ws)[i] != Days(ws)[j]
  {
    if ws != [] { DaysCover(ws[..|ws| - 1]); }
  }

  /** `day` is met by then, and `later` is not. */
  ghost predicate MetFirst(ws: seq<Write>, day: int, later: int) {
    exists p :: 0 <= p < |ws| && ws[p].day == day && forall q :: 0 <= q <= p ==> ws[q].day != later
  }

  /** The dates come in the order in which they are first met. */
  lemma {:induction false} DaysOrdered(ws: seq<Write>, i: nat, j: nat)
    requires i < j < |Days(ws)|
    ensures MetFirst(ws, Days(ws)[i], Days(ws)[j])
  {
    var front := ws[..|ws| - 1];
    assert forall q :: 0 <= q < |front| ==> ws[q] == front[q];
    if j < |Days(front)| {
      DaysOrdered(front, i, j);
      var p :| 0 <= p < |front| && front[p].day == Days(ws)[i]
        && forall q :: 0 <= q <= p ==> front[q].day != Days(ws)[j];
      assert ws[p].day == Days(ws)[i];
    } else {
      DaysCover(front);
      DaysMet(front, Days(ws)[i]);
      var p :| 0 <= p < |front| && front[p].day == Days(ws)[i];
      assert ws[p].day == Days(ws)[i];
    }
  }

  lemma {:induction false} DaysMet(ws: seq<Write>, day: int)
    requires day in Days(ws)
    ensures exists p :: 0 <= p < |ws| && ws[p].day == day
  {
    var front := ws[..|ws| - 1];
    if day in Days(front) {
      DaysMet(front, day);
      var p :| 0 <= p < |front| && front[p].day == day;
      assert ws[p].day == day;
    } else {
      assert ws[|ws| - 1].day == day;
    }
  }

  lemma NoneOn(ws: seq<Write>, day: int)
    requires day !in Days(ws)
    ensures Filter(ws, On(day)) == []
  {
    DaysCover(ws);
    FilterNone(ws, On(day));
  }

  // ---------- Rereading the hot file ----------

  lemma CleanRewritten(raw: string, f: Format)
    requires f.space('\n')
    ensures Clean(Rewritten(raw, f), f) == Clean(raw, f)
    ensures Rewritten(Rewritten(raw, f), f) == Rewritten(raw, f)
  {
    if f.at(Clean(raw, f)).Some? {
      var a, b := StripPieces(raw, f.space);
      StripUnique([], Clean(raw, f), "\n", f.space);
      assert [] + Clean(raw, f) + "\n" == Clean(raw, f) + "\n";
    }
  }

  lemma CleanIsTrimmed(raw: string, f: Format)
    requires f.space('\n') && IsLine(raw, IsNewline)
    ensures Tight(Clean(raw, f), f.space) && Never(Clean(raw, f), IsNewline)
  {
    var a, b := StripPieces(raw, f.space);
    var core := Clean(raw, f);
    forall i | 0 <= i < |core| ensures !IsNewline(core[i]) {
      assert core[i] == raw[|a| + i];
      if |a| + i < |raw| - 1 { assert raw[..|raw| - 1][|a| + i] == core[i]; }
    }
  }

  lemma RewrittenIsLine(raw: string, f: Format)
    requires f.space('\n') && IsLine(raw, IsNewline)
    ensures IsLine(Rewritten(raw, f), IsNewline)
    ensures Terminated(raw, IsNewline) ==> Terminated(Rewritten(raw, f), IsNewline)
  {
    CleanIsTrimmed(raw, f);
    assert (Clean(raw, f) + "\n")[..|Clean(raw, f)|] == Clean(raw, f);
  }

  /** What is kept is again a list of whole lines. */
  lemma {:induction false} KeptChained(raws: seq<string>, cutoff: int, f: Format)
    requires f.space('\n') && Chained(raws, IsNewline) && forall l <- raws :: IsLine(l, IsNewline)
    ensures Chained(Kept(raws, cutoff, f), IsNewline) && forall l <- Kept(raws, cutoff, f) :: IsLine(l, IsNewline)
  {
    if raws != [] {
      assert Chained(raws[1..], IsNewline) by {
        forall i | 0 <= i < |raws[1..]| - 1 ensures Terminated(raws[1..][i], IsNewline) {
          assert raws[1..][i] == raws[i + 1];
        }
      }
      KeptChained(raws[1..], cutoff, f);
      RewrittenIsLine(raws[0], f);
      var rest := Kept(raws[1..], cutoff, f);
      if rest != [] {
        assert Terminated(raws[0], IsNewline);
        forall i | 0 <= i < |[Rewritten(raws[0], f)] + rest| - 1
          ensures Terminated(([Rewritten(raws[0], f)] + rest)[i], IsNewline)
        {
          if i > 0 { assert ([Rewritten(raws[0], f)] + rest)[i] == rest[i - 1]; }
        }
      }
    }
  }

  lemma HotLines(text: string, cutoff: int, f: Format)
    requires f.space('\n')
    ensures Lines(Hot(text, cutoff, f)) == Kept(Lines(text), cutoff, f)
  {
    SplitKeepSound(text, IsNewline);
    KeptChained(Lines(text), cutoff, f);
    SplitKeepConcat(Kept(Lines(text), cutoff, f), IsNewline);
  }

  lemma {:induction false} KeptReads(raws: seq<string>, cutoff: int, f: Format)
    requires f.space('\n')
    ensures Reading(Kept(raws, cutoff, f), f) == Filter(Reading(raws, f), Stays(cutoff, f))
  {
    if raws != [] {
      KeptReads(raws[1..], cutoff, f);
      var line, rest := Clean(raws[0], f), Kept(raws[1..], cutoff, f);
      CleanRewritten(raws[0], f);
      if line != "" { assert ([line] + Reading(raws[1..], f))[1..] == Reading(raws[1..], f); }
      assert ([Rewritten(raws[0], f)] + rest)[1..] == rest;
    }
  }

  /** The new hot file holds exactly the lines that stay, in their order. */
  lemma HotContent(text: string, cutoff: int, f: Format)
    requires f.space('\n')
    ensures Content(Hot(text, cutoff, f), f) == Filter(Content(text, f), Stays(cutoff, f))
  {
    HotLines(text, cutoff, f);
    KeptReads(Lines(text), cutoff, f);
  }

  lemma {:induction false} KeptKept(raws: seq<string>, c1: int, c2: int, f: Format)
    requires f.space('\n') && c1 <= c2
    ensures Kept(Kept(raws, c1, f), c2, f) == Kept(raws, c2, f)
  {
    if raws != [] {
      KeptKept(raws[1..], c1, c2, f);
      var rest := Kept(raws[1..], c1, f);
      CleanRewritten(raws[0], f);
      assert ([Rewritten(raws[0], f)] + rest)[1..] == rest;
    }
  }

  /** An earlier run at an earlier cutoff makes no difference to the hot file. */
  lemma HotHot(text: string, c1: int, c2: int, f: Format)
    requires f.space('\n') && c1 <= c2
    ensures Hot(Hot(text, c1, f), c2, f) == Hot(text, c2, f)
  {
    HotLines(text, c1, f);
    KeptKept(Lines(text), c1, c2, f);
  }

  // ---------- The cold files ----------

  lemma {:induction false} FlushOn(days: seq<int>, ws: seq<Write>, day: int)
    requires forall i, j :: 0 <= i < j < |days| ==> days[i] != days[j]
    ensures Filter(Flush(days, ws), On(day)) == if day in days then Filter(ws, On(day)) else []
  {
    if days != [] {
      FlushOn(days[1..], ws, day);
      FilterAppend(Filter(ws, On(days[0])), Flush(days[1..], ws), On(day));
      if day == days[0] {
        FilterAll(Filter(ws, On(day)), On(day));
        assert day !in days[1..];
      } else {
        FilterNone(Filter(ws, On(days[0])), On(day));
      }
    }
  }

  /** Grouping by date changes no file: every date gets its lines in file order. */
  lemma GroupedOn(ws: seq<Write>, day: int)
    ensures Filter(Grouped(ws), On(day)) == Filter(ws, On(day))
  {
    DaysCover(ws);
    FlushOn(Days(ws), ws, day);
    if day !in Days(ws) { NoneOn(ws, day); }
  }

  lemma {:induction false} CountOn(ws: seq<Write>, w: Write)
    ensures multiset(Filter(ws, On(w.day)))[w] == multiset(ws)[w]
  {
    if ws != [] {
      CountOn(ws[1..], w);
      assert ws == [ws[0]] + ws[1..];
    }
  }

  lemma GroupedIsPermutation(ws: seq<Write>)
    ensures multiset(Grouped(ws)) == multiset(ws)
  {
    forall w: Write ensures multiset(Grouped(ws))[w] == multiset(ws)[w] {
      GroupedOn(ws, w.day);
      CountOn(ws, w);
      CountOn(Grouped(ws), w);
    }
  }

  ghost predicate Trimmed(lines: seq<string>, f: Format) {
    forall i :: 0 <= i < |lines| ==> lines[i] != "" && Tight(lines[i], f.space) && Never(lines[i], IsNewline)
  }

  /** One more line in front of a cold file is read as that line. */
  lemma ColdLineReads(line: string, rest: seq<Write>, f: Format, day: int)
    requires f.space('\n') && Trimmed([line], f)
    ensures Content(Concat(LinesOf([Write(day, line + "\n")] + rest)), f) == [line] + Content(Concat(LinesOf(rest)), f)
  {
    var w := Write(day, line + "\n");
    assert [line][0] == line;
    assert ([w] + rest)[1..] == rest;
    SplitKeepAppend(w.line, Concat(LinesOf(rest)), IsNewline);
    assert w.line[..|w.line| - 1] == line;
    SplitKeepLine(w.line, IsNewline);
    StripUnique([], line, "\n", f.space);
    assert [] + line + "\n" == w.line;
    var tail := Lines(Concat(LinesOf(rest)));
    assert ([w.line] + tail)[1..] == tail;
  }

  /** A date's cold file read back: the old lines of that date, trimmed, in file order. */
  lemma {:induction false} ColdReads(lines: seq<string>, cutoff: int, f: Format, day: int)
    requires f.space('\n') && Trimmed(lines, f)
    ensures var file := Filter(Moved(lines, cutoff, f), On(day));
      Content(Concat(LinesOf(file)), f) ==
        Filter(lines, (l: string) => Old(l, cutoff, f) && f.day(f.at(l).value) == day)
  {
    if lines != [] {
      ColdReads(lines[1..], cutoff, f, day);
      var moved := Moved(lines[1..], cutoff, f);
      if Old(lines[0], cutoff, f) {
        var w := Write(f.day(f.at(lines[0]).value), lines[0] + "\n");
        assert ([w] + moved)[1..] == moved;
        if w.day == day { ColdLineReads(lines[0], Filter(moved, On(day)), f, day); }
      }
    }
  }

  lemma {:induction false} ReadingTrimmed(raws: seq<string>, f: Format)
    requires f.space('\n') && forall i :: 0 <= i < |raws| ==> IsLine(raws[i], IsNewline)
    ensures Trimmed(Reading(raws, f), f)
  {
    if raws != [] {
      ReadingTrimmed(raws[1..], f);
      CleanIsTrimmed(raws[0], f);
    }
  }

  /** What a run appends to a date's file reads back as the hot file's old lines of that date, in order. */
  lemma ColdFileReads(text: string, cutoff: int, f: Format, day: int)
    requires f.space('\n')
    ensures Content(Concat(LinesOf(Filter(Grouped(Outgoing(text, cutoff, f)), On(day)))), f)
      == Filter(Content(text, f), (l: string) => Old(l, cutoff, f) && f.day(f.at(l).value) == day)
  {
    SplitKeepSound(text, IsNewline);
    ReadingTrimmed(Lines(text), f);
    GroupedOn(Outgoing(text, cutoff, f), day);
    ColdReads(Content(text, f), cutoff, f, day);
  }

  function LinesOf(ws: seq<Write>): seq<string> {
    if ws == [] then [] else [ws[0].line] + LinesOf(ws[1..])
  }

  // ---------- Conservation ----------

  lemma BareCons(line: string, ws: seq<Write>, f: Format)
    requires f.at(line).Some?
    ensures Bare([Outgo(line, f)] + ws) == [line] + Bare(ws)
  {
    assert ([Outgo(line, f)] + ws)[1..] == ws;
    assert (line + "\n")[..|line|] == line;
  }

  lemma {:induction false} MovedPlusKept(lines: seq<string>, cutoff: int, f: Format)
    ensures multiset(lines) == multiset(Filter(lines, Stays(cutoff, f))) + multiset(Bare(Moved(lines, cutoff, f)))
  {
    if lines != [] {
      var rest := lines[1..];
      MovedPlusKept(rest, cutoff, f);
      SplitMore(lines[0], rest, Filter(rest, Stays(cutoff, f)), Bare(Moved(rest, cutoff, f)));
      assert lines == [lines[0]] + rest;
      if Old(lines[0], cutoff, f) { BareCons(lines[0], Moved(rest, cutoff, f), f); }
    }
  }

  /** The lines of appended writes, without their line ends. */
  function Bare(ws: seq<Write>): seq<string> {
    if ws == [] then []
    else [if ws[0].line == "" then "" else ws[0].line[..|ws[0].line| - 1]] + Bare(ws[1..])
  }

  /** A complete run loses nothing and invents nothing: hot and appended lines together are the lines there were, and
      every date's file grows by its own lines in file order. */
  lemma Conservation(s: Store, cutoff: int, f: Format, day: int)
    requires f.space('\n')
    ensures var t := AfterRun(s, cutoff, None, f);
      && multiset(Content(s.hot, f)) == multiset(Content(t.hot, f)) + multiset(Bare(Outgoing(s.hot, cutoff, f)))
      && multiset(t.cold) == multiset(s.cold) + multiset(Outgoing(s.hot, cutoff, f))
      && Content(t.hot, f) == Filter(Content(s.hot, f), Stays(cutoff, f))
      && Filter(t.cold, On(day)) == Filter(s.cold, On(day)) + Filter(Outgoing(s.hot, cutoff, f), On(day))
  {
    HotContent(s.hot, cutoff, f);
    MovedPlusKept(Content(s.hot, f), cutoff, f);
    GroupedIsPermutation(Outgoing(s.hot, cutoff, f));
    ColdGrows(s, cutoff, f, day);
  }

  /** A line with a time before the cutoff goes to the file of its date; every other line stays. */
  lemma WhereLinesGo(s: Store, cutoff: int, f: Format, line: string, day: int)
    requires f.space('\n')
    ensures var t := AfterRun(s, cutoff, None, f);
      && (line in Content(t.hot, f) <==>
            line in Content(s.hot, f) && (f.at(line).None? || f.at(line).value >= cutoff))
      && (Write(day, line + "\n") in Outgoing(s.hot, cutoff, f) <==>
            && line in Content(s.hot, f) && f.at(line).Some?
            && f.at(line).value < cutoff && f.day(f.at(line).value) == day)
  {
    HotContent(s.hot, cutoff, f);
    MovedHolds(Content(s.hot, f), cutoff, f, line, day);
  }

  lemma {:induction false} MovedHolds(lines: seq<string>, cutoff: int, f: Format, line: string, day: int)
    ensures Write(day, line + "\n") in Moved(lines, cutoff, f) <==>
      line in lines && f.at(line).Some? && f.at(line).value < cutoff && f.day(f.at(line).value) == day
  {
    if lines != [] {
      MovedHolds(lines[1..], cutoff, f, line, day);
      assert lines == [lines[0]] + lines[1..];
      if lines[0] + "\n" == line + "\n" { assert (lines[0] + "\n")[..|lines[0]|] == (line + "\n")[..|line|]; }
    }
  }

  // ---------- Several runs ----------

  lemma {:induction false} MovedInTwo(lines: seq<string>, c1: int, c2: int, f: Format)
    requires c1 <= c2
    ensures multiset(Moved(lines, c2, f))
      == multiset(Moved(lines, c1, f)) + multiset(Moved(Filter(lines, Stays(c1, f)), c2, f))
  {
    if lines != [] {
      MovedInTwo(lines[1..], c1, c2, f);
      var rest := Filter(lines[1..], Stays(c1, f));
      assert ([lines[0]] + rest)[1..] == rest;
    }
  }

  /** The instants of dated lines never go back. */
  ghost predicate TimeOrdered(lines: seq<string>, f: Format) {
    forall i, j :: 0 <= i < j < |lines| && f.at(lines[i]).Some? && f.at(lines[j]).Some? ==>
      f.at(lines[i]).value <= f.at(lines[j]).value
  }

  lemma {:induction false} MovedInTwoOrdered(lines: seq<string>, c1: int, c2: int, f: Format)
    requires c1 <= c2 && TimeOrdered(lines, f)
    ensures Moved(lines, c2, f) == Moved(lines, c1, f) + Moved(Filter(lines, Stays(c1, f)), c2, f)
  {
    if lines != [] {
      MovedInTwoOrdered(lines[1..], c1, c2, f);
      var rest := Filter(lines[1..], Stays(c1, f));
      assert ([lines[0]] + rest)[1..] == rest;
      if f.at(lines[0]).Some? && !Old(lines[0], c1, f) {
        NoneOld(lines[1..], c1, f);
      }
    }
  }

  lemma {:induction false} NoneOld(lines: seq<string>, cutoff: int, f: Format)
    requires forall i :: 0 <= i < |lines| ==> !Old(lines[i], cutoff, f)
    ensures Moved(lines, cutoff, f) == []
  {
    if lines != [] { NoneOld(lines[1..], cutoff, f); }
  }

  /** What two runs append to a date's file, against one run at the later cutoff. */
  lemma OutgoingInTwo(text: string, c1: int, c2: int, f: Format, day: int)
    requires f.space('\n') && c1 <= c2
    ensures var two := Filter(Outgoing(text, c1, f), On(day)) + Filter(Outgoing(Hot(text, c1, f), c2, f), On(day));
      var one := Filter(Outgoing(text, c2, f), On(day));
      multiset(two) == multiset(one) && (TimeOrdered(Content(text, f), f) ==> two == one)
  {
    HotContent(text, c1, f);
    MovedInTwo(Content(text, f), c1, c2, f);
    var o1, o2, o := Outgoing(text, c1, f), Outgoing(Hot(text, c1, f), c2, f), Outgoing(text, c2, f);
    FilterPermutation(o, o1 + o2, On(day));
    FilterAppend(o1, o2, On(day));
    if TimeOrdered(Content(text, f), f) { MovedInTwoOrdered(Content(text, f), c1, c2, f); }
  }

  lemma ColdGrows(s: Store, cutoff: int, f: Format, day: int)
    ensures Filter(AfterRun(s, cutoff, None, f).cold, On(day))
      == Filter(s.cold, On(day)) + Filter(Outgoing(s.hot, cutoff, f), On(day))
  {
    GroupedOn(Outgoing(s.hot, cutoff, f), day);
    FilterAppend(s.cold, Grouped(Outgoing(s.hot, cutoff, f)), On(day));
  }

  /** Archiving at one cutoff and then at a later one: the same hot file as the later cutoff alone, and the same
      lines in every date's file; in a file ordered by time, in the same order too. */
  lemma TwoCutoffs(s: Store, c1: int, c2: int, f: Format, day: int)
    requires f.space('\n') && c1 <= c2
    ensures var twice, once := AfterRun(AfterRun(s, c1, None, f), c2, None, f), AfterRun(s, c2, None, f);
      && twice.hot == once.hot
      && multiset(Filter(twice.cold, On(day))) == multiset(Filter(once.cold, On(day)))
      && (TimeOrdered(Content(s.hot, f), f) ==> Filter(twice.cold, On(day)) == Filter(once.cold, On(day)))
  {
    HotHot(s.hot, c1, c2, f);
    OutgoingInTwo(s.hot, c1, c2, f, day);
    ColdGrows(s, c1, f, day);
    ColdGrows(AfterRun(s, c1, None, f), c2, f, day);
    ColdGrows(s, c2, f, day);
    Regroup(Filter(s.cold, On(day)), Filter(Outgoing(s.hot, c1, f), On(day)),
      Filter(Outgoing(Hot(s.hot, c1, f), c2, f), On(day)), Filter(Outgoing(s.hot, c2, f), On(day)));
  }

  lemma Regroup(c: seq<Write>, a: seq<Write>, b: seq<Write>, ab: seq<Write>)
    requires multiset(a + b) == multiset(ab)
    ensures multiset(c + a + b) == multiset(c + ab)
    ensures a + b == ab ==> c + a + b == c + ab
  {
    assert c + a + b == c + (a + b);
  }

  lemma FilterPermutation(a: seq<Write>, b: seq<Write>, p: Write -> bool)
    requires multiset(a) == multiset(b)
    ensures multiset(Filter(a, p)) == multiset(Filter(b, p))
  {
    forall w: Write ensures multiset(Filter(a, p))[w] == multiset(Filter(b, p))[w] {
      FilterCount(a, p, w);
      FilterCount(b, p, w);
    }
  }

  lemma {:induction false} FilterCount(a: seq<Write>, p: Write -> bool, w: Write)
    ensures multiset(Filter(a, p))[w] == if p(w) then multiset(a)[w] else 0
  {
    if a != [] {
      FilterCount(a[1..], p, w);
      assert a == [a[0]] + a[1..];
    }
  }

  /** A second run at the same cutoff changes nothing at all. */
  lemma RepeatIsIdle(s: Store, cutoff: int, f: Format)
    requires f.space('\n')
    ensures var t := AfterRun(s, cutoff, None, f); AfterRun(t, cutoff, None, f) == t
  {
    HotHot(s.hot, cutoff, cutoff, f);
    HotContent(s.hot, cutoff, f);
    var stay := Filter(Content(s.hot, f), Stays(cutoff, f));
    forall i | 0 <= i < |stay| ensures !Old(stay[i], cutoff, f) { assert stay[i] in stay && Stays(cutoff, f)(stay[i]); }
    NoneOld(stay, cutoff, f);
  }

  // ---------- Runs that stop half way ----------

  datatype Attempt = Attempt(cutoff: int, stop: Option<nat>)

  function AfterAll(s: Store, runs: seq<Attempt>, f: Format): Store
    decreases |runs|
  {
    if runs == [] then s else AfterAll(AfterRun(s, runs[0].cutoff, runs[0].stop, f), runs[1..], f)
  }

  /** Everything that is in cold or will be by the cutoff. */
  ghost function Due(s: Store, cutoff: int, f: Format): multiset<Write> {
    multiset(s.cold) + multiset(Outgoing(s.hot, cutoff, f))
  }

  /** One attempt at an earlier cutoff, complete or not: no line is lost, none is new, and the final hot file is the
      same. */
  lemma AttemptKeeps(s: Store, r: Attempt, cutoff: int, f: Format)
    requires f.space('\n') && r.cutoff <= cutoff
    ensures var t := AfterRun(s, r.cutoff, r.stop, f);
      && Hot(t.hot, cutoff, f) == Hot(s.hot, cutoff, f)
      && Due(s, cutoff, f) <= Due(t, cutoff, f)
      && (r.stop.None? ==> Due(s, cutoff, f) == Due(t, cutoff, f))
      && forall w :: w in Due(t, cutoff, f) ==> w in Due(s, cutoff, f)
  {
    var out := Outgoing(s.hot, r.cutoff, f);
    HotHot(s.hot, r.cutoff, cutoff, f);
    HotContent(s.hot, r.cutoff, f);
    MovedInTwo(Content(s.hot, f), r.cutoff, cutoff, f);
    GroupedIsPermutation(out);
    if r.stop.Some? {
      var part := Cut(Grouped(out), r.stop);
      forall w | w in part ensures w in multiset(Outgoing(s.hot, cutoff, f)) {
        assert w in multiset(Grouped(out));
      }
    }
  }

  lemma {:induction false} AttemptsKeep(s: Store, runs: seq<Attempt>, cutoff: int, f: Format)
    requires f.space('\n') && forall i :: 0 <= i < |runs| ==> runs[i].cutoff <= cutoff
    ensures var t := AfterAll(s, runs, f);
      && Hot(t.hot, cutoff, f) == Hot(s.hot, cutoff, f)
      && Due(s, cutoff, f) <= Due(t, cutoff, f)
      && ((forall i :: 0 <= i < |runs| ==> runs[i].stop.None?) ==> Due(s, cutoff, f) == Due(t, cutoff, f))
      && forall w :: w in Due(t, cutoff, f) ==> w in Due(s, cutoff, f)
    decreases |runs|
  {
    if runs != [] {
      AttemptKeeps(s, runs[0], cutoff, f);
      AttemptsKeep(AfterRun(s, runs[0].cutoff, runs[0].stop, f), runs[1..], cutoff, f);
    }
  }

  /** After any number of earlier attempts, each stopped anywhere or completed, a completed run ends with the hot
      file of one uninterrupted run. Cold holds all its lines, nothing else, and extra copies only where an attempt
      was stopped. */
  lemma CrashSafe(s: Store, runs: seq<Attempt>, cutoff: int, f: Format)
    requires f.space('\n') && forall i :: 0 <= i < |runs| ==> runs[i].cutoff <= cutoff
    ensures var once, t := AfterRun(s, cutoff, None, f), AfterRun(AfterAll(s, runs, f), cutoff, None, f);
      && t.hot == once.hot
      && multiset(once.cold) <= multiset(t.cold)
      && ((forall i :: 0 <= i < |runs| ==> runs[i].stop.None?) ==> multiset(t.cold) == multiset(once.cold))
      && forall w :: w in t.cold <==> w in once.cold
  {
    var m := AfterAll(s, runs, f);
    AttemptsKeep(s, runs, cutoff, f);
    GroupedIsPermutation(Outgoing(s.hot, cutoff, f));
    GroupedIsPermutation(Outgoing(m.hot, cutoff, f));
    var once, t := AfterRun(s, cutoff, None, f), AfterRun(m, cutoff, None, f);
    assert multiset(once.cold) == Due(s, cutoff, f) && multiset(t.cold) == Due(m, cutoff, f);
    forall w ensures w in t.cold <==> w in once.cold {
      assert w in t.cold <==> w in multiset(t.cold);
      assert w in once.cold <==> w in multiset(once.cold);
    }
  }

  /** At the moment a run stops, every line is still where it was, and cold has only gained copies. */
  lemma StoppedLosesNothing(s: Store, cutoff: int, n: nat, f: Format)
    ensures var t := AfterRun(s, cutoff, Some(n), f);
      && t.hot == s.hot && s.cold <= t.cold
      && forall w <- t.cold :: w in s.cold || w in Outgoing(s.hot, cutoff, f)
  {
    var out := Outgoing(s.hot, cutoff, f);
    GroupedIsPermutation(out);
    forall w | w in Grouped(out) ensures w in out { assert w in multiset(Grouped(out)); }
  }
}
