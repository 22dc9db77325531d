/** A file scanned line by line by a state machine, and lines of it rewritten in place. The machine and the
    edits are parameters here; the compose-file machine is one instance. */
module LineScan {
  import opened Text

  /** Where the machine found something, and what. Lines are counted from 1. */
  datatype Found<H> = Found(lineNo: nat, hit: H)

  /** What the machine finds in `lines`, of which the first has number `lineNo`, starting from `st`. */
  function Scan<S, H>(lines: seq<string>, st: S, lineNo: nat, step: (S, string) -> (S, Option<H>)): (es: seq<Found<H>>)
    decreases |lines|
  {
    if lines == [] then []
    else
      var r := step(st, lines[0]);
      (if r.1.Some? then [Found(lineNo, r.1.value)] else []) + Scan(lines[1..], r.0, lineNo + 1, step)
  }

  /** Each line on which the machine finds something is replaced by its edit. */
  function Rewrite<S, H>(lines: seq<string>, st: S, step: (S, string) -> (S, Option<H>),
                         edit: (string, H) -> string): (r: seq<string>)
    ensures |r| == |lines|
    decreases |lines|
  {
    if lines == [] then []
    else
      var r := step(st, lines[0]);
      [if r.1.Some? then edit(lines[0], r.1.value) else lines[0]] + Rewrite(lines[1..], r.0, step, edit)
  }

  /** Finds in strictly increasing line order, within [from, to). */
  ghost predicate InOrder<H>(es: seq<Found<H>>, from: int, to: int) {
    && (forall k :: 0 <= k < |es| ==> from <= es[k].lineNo < to)
    && (forall j, k :: 0 <= j < k < |es| ==> es[j].lineNo < es[k].lineNo)
  }

  lemma {:induction false} ScanLineNumbers<S, H>(lines: seq<string>, st: S, lineNo: nat,
                                                 step: (S, string) -> (S, Option<H>))
    ensures InOrder(Scan(lines, st, lineNo, step), lineNo, lineNo + |lines|)
    decreases |lines|
  {
    if lines != [] {
      var next := step(st, lines[0]).0;
      ScanLineNumbers(lines[1..], next, lineNo + 1, step);
      var es, rest := Scan(lines, st, lineNo, step), Scan(lines[1..], next, lineNo + 1, step);
      assert InOrder(rest, lineNo + 1, lineNo + 1 + |lines[1..]|);
      var d := |es| - |rest|;
      assert forall k :: d <= k < |es| ==> es[k] == rest[k - d];
    }
  }

  /** The machine's state before line `k`. */
  ghost function StateAt<S, H>(lines: seq<string>, st: S, k: nat, step: (S, string) -> (S, Option<H>)): S
    requires k <= |lines|
  {
    if k == 0 then st else step(StateAt(lines, st, k - 1, step), lines[k - 1]).0
  }

  lemma {:induction false} StateAtTail<S, H>(lines: seq<string>, st: S, k: nat, step: (S, string) -> (S, Option<H>))
    requires k < |lines|
    ensures StateAt(lines, st, k + 1, step) == StateAt(lines[1..], step(st, lines[0]).0, k, step)
  {
    if k == 0 {
      assert StateAt(lines, st, 1, step) == step(StateAt(lines, st, 0, step), lines[0]).0;
    } else {
      StateAtTail(lines, st, k - 1, step);
    }
  }

  /** What is found on a line is what the machine finds there in its state by then. */
  lemma {:induction false} ScanMember<S, H>(lines: seq<string>, st: S, lineNo: nat,
                                            step: (S, string) -> (S, Option<H>), k: nat, h: H)
    ensures Found(lineNo + k, h) in Scan(lines, st, lineNo, step) <==>
      k < |lines| && step(StateAt(lines, st, k, step), lines[k]).1 == Some(h)
    decreases |lines|
  {
    if lines != [] {
      ScanFirst(lines, st, lineNo, step, k, h);
      if k > 0 {
        ScanMember(lines[1..], step(st, lines[0]).0, lineNo + 1, step, k - 1, h);
        if k < |lines| { StateAtTail(lines, st, k - 1, step); }
      }
    }
  }

  lemma ScanFirst<S, H>(lines: seq<string>, st: S, lineNo: nat, step: (S, string) -> (S, Option<H>), k: nat, h: H)
    requires lines != []
    ensures var (next, hit) := step(st, lines[0]);
      Found(lineNo + k, h) in Scan(lines, st, lineNo, step) <==>
        if k == 0 then hit == Some(h) else Found(lineNo + k, h) in Scan(lines[1..], next, lineNo + 1, step)
  {
    ScanLineNumbers(lines[1..], step(st, lines[0]).0, lineNo + 1, step);
  }

  // ---------- Cutting the rewritten text into lines again ----------

  function Pieces(lines: seq<string>, brk: char -> bool): seq<string> {
    if lines == [] then [] else SplitKeep(lines[0], brk) + Pieces(lines[1..], brk)
  }

  /** When only the last line may lack its break, joining and cutting cuts each line on its own. */
  lemma {:induction false} SplitOfConcat(lines: seq<string>, brk: char -> bool)
    requires Chained(lines, brk)
    ensures SplitKeep(Concat(lines), brk) == Pieces(lines, brk)
  {
    if |lines| == 1 {
      assert Concat(lines) == lines[0] + Concat(lines[1..]) == lines[0];
      assert Pieces(lines, brk) == SplitKeep(lines[0], brk) + Pieces(lines[1..], brk) == SplitKeep(lines[0], brk);
    } else if lines != [] {
      assert Terminated(lines[0], brk);
      forall i | 0 <= i < |lines[1..]| - 1 ensures Terminated(lines[1..][i], brk) {
        assert lines[1..][i] == lines[i + 1];
      }
      SplitOfConcat(lines[1..], brk);
      SplitKeepAppend(lines[0], Concat(lines[1..]), brk);
    }
  }

  /** How many lines the first `n` of `lines` gain when each is cut on its own. */
  function Extra(lines: seq<string>, n: nat, brk: char -> bool): int
    requires n <= |lines|
  {
    if n == 0 then 0 else |SplitKeep(lines[0], brk)| - 1 + Extra(lines[1..], n - 1, brk)
  }

  lemma {:induction false} ExtraMonotone(lines: seq<string>, m: nat, n: nat, brk: char -> bool)
    requires m <= n <= |lines| && forall i :: 0 <= i < |lines| ==> lines[i] != ""
    ensures 0 <= Extra(lines, m, brk) <= Extra(lines, n, brk)
  {
    if n > 0 {
      ExtraMonotone(lines[1..], if m > 0 then m - 1 else 0, n - 1, brk);
      if m > 0 { ExtraMonotone(lines[1..], 0, m - 1, brk); }
    }
  }

  // ---------- Scanning the rewritten file ----------

  /** The machine reads the pieces of an edited line as one find of `goal`, and ends where it did before. */
  ghost predicate Keeps<S, H>(st: S, line: string, step: (S, string) -> (S, Option<H>), edit: (string, H) -> string,
                              goal: H -> H, brk: char -> bool)
    requires step(st, line).1.Some?
  {
    var (next, hit) := step(st, line);
    var pieces := SplitKeep(edit(line, hit.value), brk);
    && pieces != []
    && step(st, pieces[0]) == (next, Some(goal(hit.value)))
    && forall k :: 1 <= k < |pieces| ==> step(next, pieces[k]) == (next, None)
  }

  lemma KeepsIntro<S, H>(st: S, line: string, next: S, h: H, pieces: seq<string>, step: (S, string) -> (S, Option<H>),
                         edit: (string, H) -> string, goal: H -> H, brk: char -> bool)
    requires step(st, line) == (next, Some(h)) && SplitKeep(edit(line, h), brk) == pieces != []
    requires step(st, pieces[0]) == (next, Some(goal(h)))
    requires forall k :: 1 <= k < |pieces| ==> step(next, pieces[k]) == (next, None)
    ensures Keeps(st, line, step, edit, goal, brk)
  {
  }

  ghost predicate Faithful<S(!new), H>(step: (S, string) -> (S, Option<H>), edit: (string, H) -> string, goal: H -> H,
                                       brk: char -> bool)
  {
    forall st: S, line: string :: IsLine(line, brk) && step(st, line).1.Some? ==> Keeps(st, line, step, edit, goal, brk)
  }

  lemma {:induction false} ScanIdle<S, H>(pieces: seq<string>, rest: seq<string>, st: S, lineNo: nat,
                                          step: (S, string) -> (S, Option<H>))
    requires forall k :: 0 <= k < |pieces| ==> step(st, pieces[k]) == (st, None)
    ensures Scan(pieces + rest, st, lineNo, step) == Scan(rest, st, lineNo + |pieces|, step)
    decreases |pieces|
  {
    if pieces == [] {
      assert pieces + rest == rest;
    } else {
      assert (pieces + rest)[1..] == pieces[1..] + rest;
      ScanIdle(pieces[1..], rest, st, lineNo + 1, step);
    }
  }

  lemma ScanKept<S, H>(pieces: seq<string>, rest: seq<string>, st: S, next: S, g: H, lineNo: nat,
                       step: (S, string) -> (S, Option<H>))
    requires pieces != [] && step(st, pieces[0]) == (next, Some(g))
    requires forall k :: 1 <= k < |pieces| ==> step(next, pieces[k]) == (next, None)
    ensures Scan(pieces + rest, st, lineNo, step) == [Found(lineNo, g)] + Scan(rest, next, lineNo + |pieces|, step)
  {
    assert (pieces + rest)[1..] == pieces[1..] + rest;
    ScanIdle(pieces[1..], rest, next, lineNo + 1, step);
  }

  /** The new finds are the old ones in order, each with its goal in place, and moved down by `shift` and by
      the lines gained in front of it. */
  ghost predicate Corresponds<H>(es: seq<Found<H>>, es': seq<Found<H>>, r: seq<string>, lineNo: nat, shift: int,
                                 goal: H -> H, brk: char -> bool)
  {
    && |es'| == |es|
    && forall k :: 0 <= k < |es| ==>
         && lineNo <= es[k].lineNo < lineNo + |r|
         && es'[k].hit == goal(es[k].hit)
         && es'[k].lineNo == es[k].lineNo + shift + Extra(r, es[k].lineNo - lineNo, brk)
  }

  lemma CorrespondsTail<H>(es: seq<Found<H>>, es': seq<Found<H>>, r: seq<string>, lineNo: nat, shift: int, goal: H -> H,
                           brk: char -> bool)
    requires r != [] && Corresponds(es, es', r[1..], lineNo + 1, shift + |SplitKeep(r[0], brk)| - 1, goal, brk)
    ensures Corresponds(es, es', r, lineNo, shift, goal, brk)
  {
  }

  lemma CorrespondsCons<H>(h: H, es: seq<Found<H>>, es': seq<Found<H>>, r: seq<string>, lineNo: nat, lineNo': nat,
                           goal: H -> H, brk: char -> bool)
    requires r != [] && Corresponds(es, es', r, lineNo, lineNo' - lineNo, goal, brk)
    ensures Corresponds([Found(lineNo, h)] + es, [Found(lineNo', goal(h))] + es', r, lineNo, lineNo' - lineNo,
                        goal, brk)
  {
    var fs := [Found(lineNo, h)] + es;
    assert forall k :: 0 < k < |fs| ==> fs[k] == es[k - 1];
  }

  /** Scanning the pieces of a rewritten file finds the same things in the same order, each with its goal. */
  lemma {:induction false} ScanPieces<S(!new), H>(lines: seq<string>, st: S, lineNo: nat, lineNo': nat,
                                                  step: (S, string) -> (S, Option<H>), edit: (string, H) -> string,
                                                  goal: H -> H, brk: char -> bool)
    requires Faithful(step, edit, goal, brk)
    requires forall i :: 0 <= i < |lines| ==> IsLine(lines[i], brk)
    ensures var r := Rewrite(lines, st, step, edit);
      Corresponds(Scan(lines, st, lineNo, step), Scan(Pieces(r, brk), st, lineNo', step), r, lineNo, lineNo' - lineNo,
                  goal, brk)
    decreases |lines|
  {
    if lines != [] {
      var (next, hit) := step(st, lines[0]);
      var r := Rewrite(lines, st, step, edit);
      assert r[1..] == Rewrite(lines[1..], next, step, edit);
      var n := |SplitKeep(r[0], brk)|;
      ScanPieces(lines[1..], next, lineNo + 1, lineNo' + n, step, edit, goal, brk);
      CorrespondsTail(Scan(lines[1..], next, lineNo + 1, step), Scan(Pieces(r[1..], brk), next, lineNo' + n, step),
        r, lineNo, lineNo' - lineNo, goal, brk);
      if hit.Some? {
        assert Keeps(st, lines[0], step, edit, goal, brk);
        CorrespondsFound(lines, r, st, lineNo, lineNo', step, edit, goal, brk);
      } else {
        CorrespondsSkipped(lines, r, st, lineNo, lineNo', step, goal, brk);
      }
    }
  }

  /** When the rest corresponds, so does the whole, with a found line in front... */
  lemma CorrespondsFound<S, H>(lines: seq<string>, r: seq<string>, st: S, lineNo: nat, lineNo': nat,
                               step: (S, string) -> (S, Option<H>), edit: (string, H) -> string, goal: H -> H,
                               brk: char -> bool)
    requires lines != [] && r != [] && step(st, lines[0]).1.Some? && Keeps(st, lines[0], step, edit, goal, brk)
    requires r[0] == edit(lines[0], step(st, lines[0]).1.value)
    requires var next := step(st, lines[0]).0;
      Corresponds(Scan(lines[1..], next, lineNo + 1, step),
                  Scan(Pieces(r[1..], brk), next, lineNo' + |SplitKeep(r[0], brk)|, step),
                  r, lineNo, lineNo' - lineNo, goal, brk)
    ensures Corresponds(Scan(lines, st, lineNo, step), Scan(Pieces(r, brk), st, lineNo', step), r, lineNo,
                        lineNo' - lineNo, goal, brk)
  {
    var (next, hit) := step(st, lines[0]);
    var pieces := SplitKeep(r[0], brk);
    FoundPieces(lines, pieces, Pieces(r[1..], brk), st, lineNo, lineNo', step, edit, goal, brk);
    CorrespondsCons(hit.value, Scan(lines[1..], next, lineNo + 1, step),
                    Scan(Pieces(r[1..], brk), next, lineNo' + |pieces|, step), r, lineNo, lineNo', goal, brk);
  }

  /** ...or with any other. */
  lemma CorrespondsSkipped<S, H>(lines: seq<string>, r: seq<string>, st: S, lineNo: nat, lineNo': nat,
                                 step: (S, string) -> (S, Option<H>), goal: H -> H, brk: char -> bool)
    requires lines != [] && r != [] && r[0] == lines[0] && IsLine(lines[0], brk) && step(st, lines[0]).1.None?
    requires var next := step(st, lines[0]).0;
      Corresponds(Scan(lines[1..], next, lineNo + 1, step),
                  Scan(Pieces(r[1..], brk), next, lineNo' + |SplitKeep(r[0], brk)|, step),
                  r, lineNo, lineNo' - lineNo, goal, brk)
    ensures Corresponds(Scan(lines, st, lineNo, step), Scan(Pieces(r, brk), st, lineNo', step), r, lineNo,
                        lineNo' - lineNo, goal, brk)
  {
    SkippedPieces(lines, SplitKeep(r[0], brk), Pieces(r[1..], brk), st, lineNo, lineNo', step, brk);
  }

  /** A found line, and the pieces it became, each give one find in front of the rest. */
  lemma FoundPieces<S, H>(lines: seq<string>, pieces: seq<string>, rest': seq<string>, st: S, lineNo: nat, lineNo': nat,
                          step: (S, string) -> (S, Option<H>), edit: (string, H) -> string, goal: H -> H,
                          brk: char -> bool)
    requires lines != [] && step(st, lines[0]).1.Some? && Keeps(st, lines[0], step, edit, goal, brk)
    requires pieces == SplitKeep(edit(lines[0], step(st, lines[0]).1.value), brk)
    ensures var (next, hit) := step(st, lines[0]);
      && Scan(lines, st, lineNo, step) == [Found(lineNo, hit.value)] + Scan(lines[1..], next, lineNo + 1, step)
      && Scan(pieces + rest', st, lineNo', step) ==
        [Found(lineNo', goal(hit.value))] + Scan(rest', next, lineNo' + |pieces|, step)
  {
    var (next, hit) := step(st, lines[0]);
    ScanKept(pieces, rest', st, next, goal(hit.value), lineNo', step);
  }

  lemma SkippedPieces<S, H>(lines: seq<string>, pieces: seq<string>, rest': seq<string>, st: S, lineNo: nat,
                            lineNo': nat, step: (S, string) -> (S, Option<H>), brk: char -> bool)
    requires lines != [] && IsLine(lines[0], brk) && step(st, lines[0]).1.None? && pieces == SplitKeep(lines[0], brk)
    ensures var next := step(st, lines[0]).0;
      && Scan(lines, st, lineNo, step) == Scan(lines[1..], next, lineNo + 1, step)
      && |pieces| == 1 && Scan(pieces + rest', st, lineNo', step) == Scan(rest', next, lineNo' + 1, step)
  {
    SplitKeepLine(lines[0], brk);
    assert (pieces + rest')[1..] == rest' && (pieces + rest')[0] == lines[0];
    ScanSkipped(lines, st, lineNo, step);
    ScanSkipped(pieces + rest', st, lineNo', step);
  }

  lemma ScanSkipped<S, H>(lines: seq<string>, st: S, lineNo: nat, step: (S, string) -> (S, Option<H>))
    requires lines != [] && step(st, lines[0]).1.None?
    ensures Scan(lines, st, lineNo, step) == Scan(lines[1..], step(st, lines[0]).0, lineNo + 1, step)
  {
  }

  /** Rewriting, writing the text out, reading it back and scanning: the same finds in the same order. */
  lemma RewriteThenRescan<S(!new), H(!new)>(text: string, st: S, step: (S, string) -> (S, Option<H>),
                                            edit: (string, H) -> string, goal: H -> H, brk: char -> bool)
    requires Faithful(step, edit, goal, brk)
    requires forall line: string, h: H :: Terminated(line, brk) ==> Terminated(edit(line, h), brk)
    ensures var lines := SplitKeep(text, brk);
      var r := Rewrite(lines, st, step, edit);
      Corresponds(Scan(lines, st, 1, step), Scan(SplitKeep(Concat(r), brk), st, 1, step), r, 1, 0, goal, brk)
  {
    var lines := SplitKeep(text, brk);
    SplitKeepSound(text, brk);
    var r := Rewrite(lines, st, step, edit);
    RewriteChained(lines, st, step, edit, brk);
    SplitOfConcat(r, brk);
    forall i | 0 <= i < |lines| ensures IsLine(lines[i], brk) { assert lines[i] in lines; }
    ScanPieces(lines, st, 1, 1, step, edit, goal, brk);
  }

  lemma {:induction false} RewriteChained<S, H(!new)>(lines: seq<string>, st: S, step: (S, string) -> (S, Option<H>),
                                                      edit: (string, H) -> string, brk: char -> bool)
    requires Chained(lines, brk)
    requires forall line: string, h: H :: Terminated(line, brk) ==> Terminated(edit(line, h), brk)
    ensures Chained(Rewrite(lines, st, step, edit), brk)
    decreases |lines|
  {
    if |lines| > 1 {
      assert Terminated(lines[0], brk);
      forall i | 0 <= i < |lines[1..]| - 1 ensures Terminated(lines[1..][i], brk) {
        assert lines[1..][i] == lines[i + 1];
      }
      var (next, hit) := step(st, lines[0]);
      RewriteChained(lines[1..], next, step, edit, brk);
      var r, tail := Rewrite(lines, st, step, edit), Rewrite(lines[1..], next, step, edit);
      forall i | 0 <= i < |r| - 1 ensures Terminated(r[i], brk) {
        if i > 0 { assert r[i] == tail[i - 1]; }
      }
    }
  }

  /** A line on which nothing is found, or whose edit changes nothing, stays as it is. */
  lemma {:induction false} RewriteElsewhere<S, H>(lines: seq<string>, st: S, lineNo: nat,
                                                  step: (S, string) -> (S, Option<H>), edit: (string, H) -> string,
                                                  i: nat)
    requires i < |lines|
    requires forall e <- Scan(lines, st, lineNo, step) :: e.lineNo == lineNo + i ==> edit(lines[i], e.hit) == lines[i]
    ensures Rewrite(lines, st, step, edit)[i] == lines[i]
    decreases |lines|
  {
    var (next, hit) := step(st, lines[0]);
    var es := Scan(lines, st, lineNo, step);
    if i == 0 {
      if hit.Some? { assert es[0] in es; }
    } else {
      var rest := Scan(lines[1..], next, lineNo + 1, step);
      forall e <- rest ensures e in es {
        var k :| 0 <= k < |rest| && rest[k] == e;
        assert es[k + |es| - |rest|] == e;
      }
      RewriteElsewhere(lines[1..], next, lineNo + 1, step, edit, i - 1);
    }
  }

  /** The k-th find is on the first line, or is a find of the rest. */
  lemma ScanAt<S, H>(lines: seq<string>, st: S, lineNo: nat, step: (S, string) -> (S, Option<H>), k: nat)
    requires k < |Scan(lines, st, lineNo, step)|
    ensures lines != []
    ensures var (next, hit) := step(st, lines[0]);
      var rest := Scan(lines[1..], next, lineNo + 1, step);
      if hit.Some? then
        k - 1 < |rest|
        && Scan(lines, st, lineNo, step)[k] == (if k == 0 then Found(lineNo, hit.value) else rest[k - 1])
      else k < |rest| && Scan(lines, st, lineNo, step)[k] == rest[k]
  {
  }

  /** Met in state `s`, the line of `e` gives this find, and it has been rewritten for it. */
  ghost predicate FoundAt<S, H>(lines: seq<string>, r: seq<string>, lineNo: nat, e: Found<H>, s: S,
                                step: (S, string) -> (S, Option<H>), edit: (string, H) -> string)
  {
    && |r| == |lines| && lineNo <= e.lineNo < lineNo + |lines|
    && step(s, lines[e.lineNo - lineNo]).1 == Some(e.hit)
    && r[e.lineNo - lineNo] == edit(lines[e.lineNo - lineNo], e.hit)
  }

  lemma FoundAtNext<S, H>(lines: seq<string>, r: seq<string>, lineNo: nat, e: Found<H>, s: S,
                          step: (S, string) -> (S, Option<H>), edit: (string, H) -> string)
    requires lines != [] && |r| == |lines| && FoundAt(lines[1..], r[1..], lineNo + 1, e, s, step, edit)
    ensures FoundAt(lines, r, lineNo, e, s, step, edit)
  {
    var i := e.lineNo - lineNo;
    assert lines[1..][i - 1] == lines[i] && r[1..][i - 1] == r[i];
  }

  lemma {:induction false} RewriteAt<S, H>(lines: seq<string>, st: S, lineNo: nat, step: (S, string) -> (S, Option<H>),
                                           edit: (string, H) -> string, k: nat) returns (s: S)
    requires k < |Scan(lines, st, lineNo, step)|
    ensures FoundAt(lines, Rewrite(lines, st, step, edit), lineNo, Scan(lines, st, lineNo, step)[k], s, step, edit)
    decreases |lines|
  {
    ScanAt(lines, st, lineNo, step, k);
    var (next, hit) := step(st, lines[0]);
    if hit.Some? && k == 0 {
      s := st;
    } else {
      s := RewriteAt(lines[1..], next, lineNo + 1, step, edit, if hit.Some? then k - 1 else k);
      assert Rewrite(lines, st, step, edit)[1..] == Rewrite(lines[1..], next, step, edit);
      FoundAtNext(lines, Rewrite(lines, st, step, edit), lineNo, Scan(lines, st, lineNo, step)[k], s, step, edit);
    }
  }

  /** No line is gained exactly when each line is one piece. */
  lemma {:induction false} ExtraZero(lines: seq<string>, n: nat, brk: char -> bool)
    requires n <= |lines| && forall i :: 0 <= i < |lines| ==> lines[i] != ""
    ensures Extra(lines, n, brk) == 0 <==> forall i :: 0 <= i < n ==> Single(lines[i], brk)
  {
    if n > 0 {
      ExtraMonotone(lines[1..], 0, n - 1, brk);
      ExtraZero(lines[1..], n - 1, brk);
      assert |SplitKeep(lines[0], brk)| >= 1;
      assert forall i :: 0 <= i < n - 1 ==> lines[1..][i] == lines[i + 1];
      if Extra(lines, n, brk) == 0 {
        forall i | 0 <= i < n ensures Single(lines[i], brk) {
          if i > 0 { assert lines[i] == lines[1..][i - 1]; }
        }
      }
    }
  }

  ghost predicate Single(line: string, brk: char -> bool) { |SplitKeep(line, brk)| == 1 }

  /** Line `i`, counted from 0, is that of a find in `two`. */
  ghost predicate IsTwo<H>(es: seq<Found<H>>, i: nat, two: Found<H> -> bool) {
    exists j :: 0 <= j < |es| && es[j].lineNo == i + 1 && two(es[j])
  }

  /** Finds on earlier lines are earlier finds. */
  lemma EarlierFind<H>(es: seq<Found<H>>, j: nat, k: nat, from: int, to: int)
    requires InOrder(es, from, to) && j < |es| && k < |es|
    ensures es[j].lineNo < es[k].lineNo <==> j < k
  {
  }

  lemma NoTwoBefore<H>(es: seq<Found<H>>, k: nat, i: nat, two: Found<H> -> bool, to: int)
    requires InOrder(es, 1, to) && k < |es| && i < es[k].lineNo - 1 && forall j :: 0 <= j < k ==> !two(es[j])
    ensures !IsTwo(es, i, two)
  {
    forall j | 0 <= j < |es| && es[j].lineNo == i + 1 ensures !two(es[j]) { EarlierFind(es, j, k, 1, to); }
  }

  /** When the lines that become two are those of the finds in `two`, nothing is gained in front of a find
      exactly when no earlier find is one of those. */
  lemma ExtraBefore<H>(es: seq<Found<H>>, r: seq<string>, k: nat, two: Found<H> -> bool, brk: char -> bool)
    requires InOrder(es, 1, 1 + |r|) && k < |es| && forall i :: 0 <= i < |r| ==> r[i] != ""
    requires forall i :: 0 <= i < |r| ==> Single(r[i], brk) || IsTwo(es, i, two)
    requires forall j :: 0 <= j < |es| && two(es[j]) ==> !Single(r[es[j].lineNo - 1], brk)
    ensures Extra(r, es[k].lineNo - 1, brk) == 0 <==> forall j :: 0 <= j < k ==> !two(es[j])
  {
    var n := es[k].lineNo - 1;
    ExtraZero(r, n, brk);
    if forall j :: 0 <= j < k ==> !two(es[j]) {
      forall i | 0 <= i < n ensures Single(r[i], brk) { NoTwoBefore(es, k, i, two, 1 + |r|); }
    } else {
      var j :| 0 <= j < k && two(es[j]);
      EarlierFind(es, j, k, 1, 1 + |r|);
      assert !Single(r[es[j].lineNo - 1], brk);
    }
  }

  /** An edit that changes nothing anywhere leaves the file as it is. */
  lemma {:induction false} RewriteNothing<S, H>(lines: seq<string>, st: S, lineNo: nat,
                                                step: (S, string) -> (S, Option<H>), edit: (string, H) -> string)
    requires forall k, line :: 0 <= k < |Scan(lines, st, lineNo, step)| ==>
      edit(line, Scan(lines, st, lineNo, step)[k].hit) == line
    ensures Rewrite(lines, st, step, edit) == lines
  {
    var es := Scan(lines, st, lineNo, step);
    forall i | 0 <= i < |lines| ensures Rewrite(lines, st, step, edit)[i] == lines[i] {
      RewriteElsewhere(lines, st, lineNo, step, edit, i);
    }
  }

  // ---------- Updates kept in a table by line number ----------

  /** A find and the target it should move to, if any. */
  datatype Audited<H> = Audited(lineNo: nat, hit: H, target: Option<string>)

  /** The table of wanted updates; a later one for the same line wins. */
  function UpdateMap<H>(audited: seq<Audited<H>>): map<nat, Audited<H>> {
    if audited == [] then map[]
    else
      var a := audited[|audited| - 1];
      var m := UpdateMap(audited[..|audited| - 1]);
      if a.target.Some? && a.target.value != "" then m[a.lineNo := a] else m
  }

  method CollectUpdates<H>(audited: seq<Audited<H>>) returns (updates: map<nat, Audited<H>>)
    ensures updates == UpdateMap(audited)
  {
    updates := map[];
    for k := 0 to |audited|
      invariant updates == UpdateMap(audited[..k])
    {
      assert audited[..k + 1][..k] == audited[..k];
      if audited[k].target.Some? && audited[k].target.value != "" {
        updates := updates[audited[k].lineNo := audited[k]];
      }
    }
    assert audited[..|audited|] == audited;
  }

  /** A line is in the table exactly when some verdict about it names a target. */
  lemma {:induction false} UpdateMapMeaning<H>(audited: seq<Audited<H>>, n: nat)
    ensures n in UpdateMap(audited) <==>
      exists a <- audited :: a.lineNo == n && a.target.Some? && a.target.value != ""
  {
    if audited != [] {
      var front, last := audited[..|audited| - 1], audited[|audited| - 1];
      UpdateMapMeaning(front, n);
      assert audited == front + [last];
    }
  }

  /** The update of this line that fits it; `change` gives None when it does not fit. */
  function Update<H>(line: string, lineNo: nat, updates: map<nat, Audited<H>>,
                     change: (string, H, string) -> Option<string>): Option<string> {
    if lineNo in updates && updates[lineNo].target.Some? then
      change(line, updates[lineNo].hit, updates[lineNo].target.value)
    else None
  }

  function UpdatedLine<H>(line: string, lineNo: nat, updates: map<nat, Audited<H>>,
                          change: (string, H, string) -> Option<string>): string {
    var u := Update(line, lineNo, updates, change);
    if u.Some? then u.value else line
  }

  function CountUpdates<H>(lines: seq<string>, upto: nat, updates: map<nat, Audited<H>>,
                           change: (string, H, string) -> Option<string>): nat
    requires upto <= |lines|
  {
    if upto == 0 then 0
    else
      var rest := CountUpdates(lines, upto - 1, updates, change);
      if Update(lines[upto - 1], upto, updates, change).Some? then rest + 1 else rest
  }

  /** Overwrite, in place, every line that has a fitting update, and count them. */
  method OverwriteLines<H>(before: seq<string>, updates: map<nat, Audited<H>>,
                           change: (string, H, string) -> Option<string>)
    returns (lines: seq<string>, changes: nat)
    ensures |lines| == |before|
    ensures forall i :: 0 <= i < |lines| ==> lines[i] == UpdatedLine(before[i], i + 1, updates, change)
    ensures changes == CountUpdates(before, |before|, updates, change)
    ensures changes == 0 ==> lines == before
  {
    lines := before;
    changes := 0;
    for i := 0 to |before|
      invariant |lines| == |before|
      invariant forall j :: 0 <= j < i ==> lines[j] == UpdatedLine(before[j], j + 1, updates, change)
      invariant forall j :: i <= j < |before| ==> lines[j] == before[j]
      invariant changes == CountUpdates(before, i, updates, change)
      invariant changes == 0 ==> lines == before
    {
      if i + 1 in updates && updates[i + 1].target.Some? {
        var r := change(lines[i], updates[i + 1].hit, updates[i + 1].target.value);
        if r.Some? {
          lines := lines[i := r.value];
          changes := changes + 1;
        }
      }
    }
  }

  /** The edit that makes each find move to its target. */
  function Editor<H>(decide: H -> Option<string>,
                     change: (string, H, string) -> Option<string>): (string, H) -> string {
    (line, h) =>
      var c := if decide(h).Some? then change(line, h, decide(h).value) else None;
      if c.Some? then c.value else line
  }

  function AuditAll<H>(es: seq<Found<H>>, decide: H -> Option<string>): seq<Audited<H>> {
    seq(|es|, i requires 0 <= i < |es| => Audited(es[i].lineNo, es[i].hit, decide(es[i].hit)))
  }

  /** The verdict on a find from what its key fetches. */
  function Verdicts<H, K, V>(key: H -> K, fetch: K -> V, verdict: (H, V) -> Option<string>): H -> Option<string> {
    h => verdict(h, fetch(key(h)))
  }

  /** Give every find its verdict, fetching each key once: the verdicts are those without a cache. */
  method AuditCached<H, K(==, !new), V>(es: seq<Found<H>>, key: H -> K, fetch: K -> V,
                                        verdict: (H, V) -> Option<string>)
    returns (audited: seq<Audited<H>>, fetched: seq<K>)
    ensures audited == AuditAll(es, Verdicts(key, fetch, verdict))
    ensures forall i, j :: 0 <= i < j < |fetched| ==> fetched[i] != fetched[j]
    ensures forall s :: s in fetched <==> exists k :: 0 <= k < |es| && key(es[k].hit) == s
  {
    audited, fetched := [], [];
    var cache: map<K, V> := map[];
    for k := 0 to |es|
      invariant audited == AuditAll(es[..k], Verdicts(key, fetch, verdict))
      invariant forall s :: s in cache <==> s in fetched
      invariant forall s :: s in cache ==> cache[s] == fetch(s)
      invariant forall i, j :: 0 <= i < j < |fetched| ==> fetched[i] != fetched[j]
      invariant forall s :: s in fetched <==> exists i :: 0 <= i < k && key(es[i].hit) == s
    {
      var hit := es[k].hit;
      var source := key(hit);
      if source !in cache {
        cache := cache[source := fetch(source)];
        fetched := fetched + [source];
      }
      audited := audited + [Audited(es[k].lineNo, hit, verdict(hit, cache[source]))];
    }
    assert es[..|es|] == es;
  }

  /** The table holds exactly the finds in line range with a target. */
  ghost predicate Tabulates<H>(updates: map<nat, Audited<H>>, es: seq<Found<H>>, decide: H -> Option<string>, from: nat,
                               to: nat) {
    && (forall k | 0 <= k < |es| && decide(es[k].hit).Some? ::
          es[k].lineNo in updates && updates[es[k].lineNo] == Audited(es[k].lineNo, es[k].hit, decide(es[k].hit)))
    && (forall n | from <= n < to && n in updates ::
          exists k :: 0 <= k < |es| && es[k].lineNo == n && decide(es[k].hit).Some?)
  }

  /** Every entry of the table is about one of the finds. */
  ghost predicate Within<H>(updates: map<nat, Audited<H>>, es: seq<Found<H>>) {
    forall n :: n in updates ==> exists k :: 0 <= k < |es| && es[k].lineNo == n
  }

  lemma TabulatesMore<H>(m: map<nat, Audited<H>>, front: seq<Found<H>>, e: Found<H>, decide: H -> Option<string>,
                         to: nat)
    requires Tabulates(m, front, decide, 0, to) && Within(m, front)
    requires forall k :: 0 <= k < |front| ==> front[k].lineNo < e.lineNo
    ensures var m' := if decide(e.hit).Some? then m[e.lineNo := Audited(e.lineNo, e.hit, decide(e.hit))] else m;
      Tabulates(m', front + [e], decide, 0, to) && Within(m', front + [e])
  {
    var es := front + [e];
    var m' := if decide(e.hit).Some? then m[e.lineNo := Audited(e.lineNo, e.hit, decide(e.hit))] else m;
    assert es[|front|] == e && forall k :: 0 <= k < |front| ==> es[k] == front[k];
    forall n | 0 <= n < to && n in m'
      ensures exists k :: 0 <= k < |es| && es[k].lineNo == n && decide(es[k].hit).Some?
    {
      if n in m && n != e.lineNo {
        var k :| 0 <= k < |front| && front[k].lineNo == n && decide(front[k].hit).Some?;
        assert es[k].lineNo == n;
      } else {
        assert es[|front|].lineNo == n;
      }
    }
    forall n | n in m' ensures exists k :: 0 <= k < |es| && es[k].lineNo == n {
      if n in m {
        var k :| 0 <= k < |front| && front[k].lineNo == n;
        assert es[k].lineNo == n;
      } else {
        assert es[|front|].lineNo == n;
      }
    }
  }

  lemma {:induction false} UpdateMapTabulates<H>(es: seq<Found<H>>, decide: H -> Option<string>, to: nat)
    requires forall j, k :: 0 <= j < k < |es| ==> es[j].lineNo < es[k].lineNo
    requires forall k :: 0 <= k < |es| ==> decide(es[k].hit) != Some("")
    ensures Tabulates(UpdateMap(AuditAll(es, decide)), es, decide, 0, to) && Within(UpdateMap(AuditAll(es, decide)), es)
  {
    if es != [] {
      var front, e, a := es[..|es| - 1], es[|es| - 1], AuditAll(es, decide);
      assert a[..|a| - 1] == AuditAll(front, decide);
      UpdateMapTabulates(front, decide, to);
      TabulatesMore(UpdateMap(AuditAll(front, decide)), front, e, decide, to);
      assert es == front + [e];
    }
  }

  /** `r` is `lines`, of which the first has number `lineNo`, after looking each up in the table. */
  ghost predicate LookedUp<H>(lines: seq<string>, lineNo: nat, r: seq<string>, updates: map<nat, Audited<H>>,
                              change: (string, H, string) -> Option<string>) {
    |r| == |lines| && forall i :: 0 <= i < |lines| ==> r[i] == UpdatedLine(lines[i], lineNo + i, updates, change)
  }

  lemma LookedUpCons<H>(lines: seq<string>, lineNo: nat, r: seq<string>, updates: map<nat, Audited<H>>,
                        change: (string, H, string) -> Option<string>)
    requires |r| == |lines| > 0 && r[0] == UpdatedLine(lines[0], lineNo, updates, change)
    requires LookedUp(lines[1..], lineNo + 1, r[1..], updates, change)
    ensures LookedUp(lines, lineNo, r, updates, change)
  {
    forall i | 0 <= i < |lines| ensures r[i] == UpdatedLine(lines[i], lineNo + i, updates, change) {
      if i > 0 { assert r[i] == r[1..][i - 1] && lines[i] == lines[1..][i - 1]; }
    }
  }

  /** Looking each line up in the table does what rewriting during the scan would do. */
  lemma {:induction false} TableIsRewrite<S, H>(lines: seq<string>, st: S, lineNo: nat,
                                                step: (S, string) -> (S, Option<H>), decide: H -> Option<string>,
                                                updates: map<nat, Audited<H>>,
                                                change: (string, H, string) -> Option<string>)
    requires Tabulates(updates, Scan(lines, st, lineNo, step), decide, lineNo, lineNo + |lines|)
    ensures LookedUp(lines, lineNo, Rewrite(lines, st, step, Editor(decide, change)), updates, change)
    decreases |lines|
  {
    if lines != [] {
      var next := step(st, lines[0]).0;
      TabulatesTail(lines, st, lineNo, step, decide, updates);
      TableIsRewrite(lines[1..], next, lineNo + 1, step, decide, updates, change);
      HeadLine(lines, st, lineNo, step, decide, updates, change);
      var r := Rewrite(lines, st, step, Editor(decide, change));
      assert r[1..] == Rewrite(lines[1..], next, step, Editor(decide, change));
      LookedUpCons(lines, lineNo, r, updates, change);
    }
  }

  lemma TabulatesTail<S, H>(lines: seq<string>, st: S, lineNo: nat, step: (S, string) -> (S, Option<H>),
                            decide: H -> Option<string>, updates: map<nat, Audited<H>>)
    requires lines != [] && Tabulates(updates, Scan(lines, st, lineNo, step), decide, lineNo, lineNo + |lines|)
    ensures Tabulates(updates, Scan(lines[1..], step(st, lines[0]).0, lineNo + 1, step), decide, lineNo + 1,
                      lineNo + |lines|)
  {
    var (next, hit) := step(st, lines[0]);
    var es, rest := Scan(lines, st, lineNo, step), Scan(lines[1..], next, lineNo + 1, step);
    if hit.Some? {
      assert es == [Found(lineNo, hit.value)] + rest;
      TabulatesDrop(updates, Found(lineNo, hit.value), rest, decide, lineNo + |lines|);
    } else {
      assert es == rest;
    }
  }

  lemma TabulatesDrop<H>(updates: map<nat, Audited<H>>, e: Found<H>, rest: seq<Found<H>>, decide: H -> Option<string>,
                         to: nat)
    requires Tabulates(updates, [e] + rest, decide, e.lineNo, to)
    ensures Tabulates(updates, rest, decide, e.lineNo + 1, to)
  {
    var es := [e] + rest;
    assert forall k :: 0 <= k < |rest| ==> rest[k] == es[k + 1];
    forall n | e.lineNo + 1 <= n < to && n in updates
      ensures exists k :: 0 <= k < |rest| && rest[k].lineNo == n && decide(rest[k].hit).Some?
    {
      var k :| 0 <= k < |es| && es[k].lineNo == n && decide(es[k].hit).Some?;
      assert rest[k - 1] == es[k];
    }
  }

  lemma HeadLine<S, H>(lines: seq<string>, st: S, lineNo: nat, step: (S, string) -> (S, Option<H>),
                       decide: H -> Option<string>, updates: map<nat, Audited<H>>,
                       change: (string, H, string) -> Option<string>)
    requires lines != [] && Tabulates(updates, Scan(lines, st, lineNo, step), decide, lineNo, lineNo + |lines|)
    ensures UpdatedLine(lines[0], lineNo, updates, change) == Rewrite(lines, st, step, Editor(decide, change))[0]
  {
    var (next, hit) := step(st, lines[0]);
    ScanHeaded(lines, st, lineNo, step);
    HeadTabulated(Scan(lines, st, lineNo, step), lineNo, lineNo + |lines|, hit, decide, updates);
    assert Rewrite(lines, st, step, Editor(decide, change))[0] ==
      if hit.Some? then Editor(decide, change)(lines[0], hit.value) else lines[0];
  }

  /** The finds start with one on this line, or have none on it. */
  ghost predicate Headed<H>(es: seq<Found<H>>, lineNo: nat, hit: Option<H>) {
    && (hit.Some? ==> |es| > 0 && es[0] == Found(lineNo, hit.value))
    && (forall k :: 0 <= k < |es| && (k > 0 || hit.None?) ==> es[k].lineNo > lineNo)
  }

  lemma ScanHeaded<S, H>(lines: seq<string>, st: S, lineNo: nat, step: (S, string) -> (S, Option<H>))
    requires lines != []
    ensures Headed(Scan(lines, st, lineNo, step), lineNo, step(st, lines[0]).1)
  {
    var (next, hit) := step(st, lines[0]);
    var rest := Scan(lines[1..], next, lineNo + 1, step);
    ScanLineNumbers(lines[1..], next, lineNo + 1, step);
    var es := Scan(lines, st, lineNo, step);
    assert es == if hit.Some? then [Found(lineNo, hit.value)] + rest else rest;
    assert forall k :: 0 <= k < |rest| ==> rest[k].lineNo > lineNo;
  }

  lemma HeadTabulated<H>(es: seq<Found<H>>, lineNo: nat, to: nat, hit: Option<H>, decide: H -> Option<string>,
                         updates: map<nat, Audited<H>>)
    requires Headed(es, lineNo, hit) && lineNo < to && Tabulates(updates, es, decide, lineNo, to)
    ensures
      if hit.Some? && decide(hit.value).Some? then
        lineNo in updates && updates[lineNo] == Audited(lineNo, hit.value, decide(hit.value))
      else lineNo !in updates
  {
  }

  /** Overwriting by the table built from the verdicts is rewriting during the scan. */
  lemma LookedUpIsRewrite<S, H>(before: seq<string>, lines: seq<string>, st: S, step: (S, string) -> (S, Option<H>),
                                decide: H -> Option<string>, change: (string, H, string) -> Option<string>)
    requires var es := Scan(before, st, 1, step);
      && (forall k :: 0 <= k < |es| ==> decide(es[k].hit) != Some(""))
      && LookedUp(before, 1, lines, UpdateMap(AuditAll(es, decide)), change)
    ensures lines == Rewrite(before, st, step, Editor(decide, change))
  {
    var es := Scan(before, st, 1, step);
    ScanLineNumbers(before, st, 1, step);
    UpdateMapTabulates(es, decide, 1 + |before|);
    TableIsRewrite(before, st, 1, step, decide, UpdateMap(AuditAll(es, decide)), change);
  }
}
