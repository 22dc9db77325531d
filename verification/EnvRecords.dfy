/** Settings files of `KEY=value` lines: what setting and getting a key do to the lines. */
module EnvRecords {
  import opened Text
  import opened Lists

  predicate IsEquals(c: char) { c == '=' }

  /** A key that can be set: no equals sign, no line break. */
  ghost predicate IsKey(k: string) { Never(k, IsEquals) && Never(k, IsNewline) }

  // ---------- Text and lines ----------

  /** A line without its line break. */
  function Chop(l: string): string {
    if l != "" && IsNewline(l[|l| - 1]) then l[..|l| - 1] else l
  }

  function Chopped(lines: seq<string>): seq<string> {
    if lines == [] then [] else [Chop(lines[0])] + Chopped(lines[1..])
  }

  /** The lines of a file; a missing file has none, and the last line need not be terminated. */
  function Records(file: Option<string>): seq<string> {
    match file
    case None => []
    case Some(text) => Chopped(SplitKeep(text, IsNewline))
  }

  function Print(records: seq<string>): string {
    if records == [] then "" else records[0] + "\n" + Print(records[1..])
  }

  ghost predicate OneLiners(records: seq<string>) {
    forall i :: 0 <= i < |records| ==> Never(records[i], IsNewline)
  }

  lemma {:induction false} ChoppedOneLiners(lines: seq<string>)
    requires forall l <- lines :: IsLine(l, IsNewline)
    ensures OneLiners(Chopped(lines))
  {
    if lines != [] {
      ChoppedOneLiners(lines[1..]);
      var l := lines[0];
      assert IsLine(l, IsNewline);
      forall i | 0 <= i < |Chop(l)| ensures !IsNewline(Chop(l)[i]) {
        if i < |l| - 1 { assert l[..|l| - 1][i] == l[i]; }
      }
    }
  }

  lemma RecordsOneLiners(file: Option<string>)
    ensures OneLiners(Records(file))
  {
    if file.Some? {
      SplitKeepSound(file.value, IsNewline);
      ChoppedOneLiners(SplitKeep(file.value, IsNewline));
    }
  }

  lemma {:induction false} RecordsOfPrint(records: seq<string>)
    requires OneLiners(records)
    ensures Records(Some(Print(records))) == records
  {
    if records != [] {
      var l, rest := records[0] + "\n", Print(records[1..]);
      RecordsOfPrint(records[1..]);
      SplitKeepAppend(l, rest, IsNewline);
      assert l[..|l| - 1] == records[0];
      SplitKeepLine(l, IsNewline);
      assert ([l] + SplitKeep(rest, IsNewline))[1..] == SplitKeep(rest, IsNewline);
    }
  }

  // ---------- Setting and getting ----------

  /** The text before the first equals sign, or the whole line. */
  function Head(line: string): string { line[..Until(line, IsEquals)] }

  /** The text after the first equals sign, or the whole line. */
  function After(line: string): string {
    var n := Until(line, IsEquals);
    if n == |line| then line else line[n + 1..]
  }

  predicate Assigns(line: string, k: string) { k + "=" <= line }

  function Assignment(k: string, v: string): string { k + "=" + v }

  lemma AssignsMeaning(line: string, k: string)
    requires IsKey(k)
    ensures Assigns(line, k) <==> Head(line) == k && line != k
    ensures Head(line) == k && !Assigns(line, k) <==> line == k
    ensures Assigns(line, k) ==> line == Assignment(k, After(line))
  {
    if Assigns(line, k) {
      assert line[..|k|] == k && line[|k|] == '=';
      UntilUnique(line, IsEquals, |k|);
    } else if line == k {
      UntilUnique(line, IsEquals, |line|);
    }
  }

  lemma AssignmentAssigns(k: string, v: string, other: string)
    requires IsKey(k) && IsKey(other)
    ensures Head(Assignment(k, v)) == k && After(Assignment(k, v)) == v
    ensures Assigns(Assignment(k, v), other) <==> k == other
  {
    UntilUnique(Assignment(k, v), IsEquals, |k|);
    AssignsMeaning(Assignment(k, v), k);
    AssignsMeaning(Assignment(k, v), other);
  }

  predicate Assigned(rs: seq<string>, k: string) {
    exists i :: 0 <= i < |rs| && Assigns(rs[i], k)
  }

  function Replaced(rs: seq<string>, k: string, v: string): seq<string> {
    seq(|rs|, i requires 0 <= i < |rs| => if Assigns(rs[i], k) then Assignment(k, v) else rs[i])
  }

  /** Every assignment of the key is replaced; without one, one is added at the end. */
  function Put(rs: seq<string>, k: string, v: string): seq<string> {
    if Assigned(rs, k) then Replaced(rs, k, v) else rs + [Assignment(k, v)]
  }

  /** The value on the last line whose first field is the key; empty without one. A bare key counts as such a line. */
  function Get(rs: seq<string>, k: string): string {
    if rs == [] then ""
    else if Head(rs[|rs| - 1]) == k then After(rs[|rs| - 1])
    else Get(rs[..|rs| - 1], k)
  }

  /** The value on the last assignment; empty without one. */
  function LastAssigned(rs: seq<string>, k: string): string {
    if rs == [] then ""
    else if Assigns(rs[|rs| - 1], k) then After(rs[|rs| - 1])
    else LastAssigned(rs[..|rs| - 1], k)
  }

  /** The last line about the key is the bare key, below an assignment. */
  predicate Shadowed(rs: seq<string>, k: string) {
    rs != [] &&
    if Head(rs[|rs| - 1]) == k then rs[|rs| - 1] == k && Assigned(rs, k) else Shadowed(rs[..|rs| - 1], k)
  }

  // ---------- Laws ----------

  lemma ReplacedFront(rs: seq<string>, k: string, v: string)
    requires rs != []
    ensures Replaced(rs, k, v)[..|rs| - 1] == Replaced(rs[..|rs| - 1], k, v)
  {
  }

  /** Some line is about the key. */
  predicate Mentioned(rs: seq<string>, k: string) { exists i :: 0 <= i < |rs| && Head(rs[i]) == k }

  lemma MentionedFront(rs: seq<string>, k: string)
    requires rs != [] && Head(rs[|rs| - 1]) != k
    ensures Mentioned(rs, k) <==> Mentioned(rs[..|rs| - 1], k)
  {
    var front := rs[..|rs| - 1];
    if i :| 0 <= i < |rs| && Head(rs[i]) == k { assert front[i] == rs[i]; }
    if i :| 0 <= i < |front| && Head(front[i]) == k { assert front[i] == rs[i]; }
  }

  /** Reading after every assignment of the key has been replaced. */
  lemma {:induction false} GetReplaced(rs: seq<string>, k: string, v: string)
    requires IsKey(k)
    ensures Get(Replaced(rs, k, v), k) == if Mentioned(rs, k) then (if LastIsBare(rs, k) then k else v) else ""
  {
    if rs != [] {
      var last := rs[|rs| - 1];
      ReplacedFront(rs, k, v);
      AssignsMeaning(last, k);
      AssignmentAssigns(k, v, k);
      if Head(last) != k {
        GetReplaced(rs[..|rs| - 1], k, v);
        MentionedFront(rs, k);
      } else {
        assert Mentioned(rs, k);
        if last == k { UntilUnique(k, IsEquals, |k|); }
      }
    }
  }

  predicate LastIsBare(rs: seq<string>, k: string) {
    rs != [] && if Head(rs[|rs| - 1]) == k then rs[|rs| - 1] == k else LastIsBare(rs[..|rs| - 1], k)
  }

  lemma {:induction false} ShadowedMeaning(rs: seq<string>, k: string)
    requires IsKey(k) && Assigned(rs, k)
    ensures Shadowed(rs, k) <==> LastIsBare(rs, k)
  {
    var last, front := rs[|rs| - 1], rs[..|rs| - 1];
    if Head(last) != k {
      AssignsMeaning(last, k);
      var i :| 0 <= i < |rs| && Assigns(rs[i], k);
      assert front[i] == rs[i];
      ShadowedMeaning(front, k);
    }
  }

  lemma {:induction false} ShadowedAssigned(rs: seq<string>, k: string)
    requires Shadowed(rs, k)
    ensures Assigned(rs, k)
  {
    if Head(rs[|rs| - 1]) != k {
      ShadowedAssigned(rs[..|rs| - 1], k);
      var i :| 0 <= i < |rs| - 1 && Assigns(rs[..|rs| - 1][i], k);
      assert Assigns(rs[i], k);
    }
  }

  /** Getting a key just set gives the value, exactly when no bare key below the assignments hides it. */
  lemma GetAfterPut(rs: seq<string>, k: string, v: string)
    requires IsKey(k)
    ensures Get(Put(rs, k, v), k) == v <==> v == k || !Shadowed(rs, k)
    ensures Shadowed(rs, k) ==> Get(Put(rs, k, v), k) == k
  {
    AssignmentAssigns(k, v, k);
    if Assigned(rs, k) {
      var i :| 0 <= i < |rs| && Assigns(rs[i], k);
      AssignsMeaning(rs[i], k);
      GetReplaced(rs, k, v);
      ShadowedMeaning(rs, k);
    } else if Shadowed(rs, k) {
      ShadowedAssigned(rs, k);
    }
  }

  lemma {:induction false} GetReplacedOther(rs: seq<string>, k: string, v: string, other: string)
    requires IsKey(k) && IsKey(other) && other != k
    ensures Get(Replaced(rs, k, v), other) == Get(rs, other)
  {
    if rs != [] {
      ReplacedFront(rs, k, v);
      AssignsMeaning(rs[|rs| - 1], k);
      AssignmentAssigns(k, v, other);
      GetReplacedOther(rs[..|rs| - 1], k, v, other);
    }
  }

  /** Setting one key leaves the value of every other key as it was. */
  lemma GetOther(rs: seq<string>, k: string, v: string, other: string)
    requires IsKey(k) && IsKey(other) && other != k
    ensures Get(Put(rs, k, v), other) == Get(rs, other)
  {
    AssignmentAssigns(k, v, other);
    GetReplacedOther(rs, k, v, other);
    assert (rs + [Assignment(k, v)])[..|rs|] == rs;
  }

  lemma {:induction false} LastReplacedOther(rs: seq<string>, k: string, v: string, other: string)
    requires IsKey(k) && IsKey(other) && other != k
    ensures LastAssigned(Replaced(rs, k, v), other) == LastAssigned(rs, other)
  {
    if rs != [] {
      ReplacedFront(rs, k, v);
      AssignsMeaning(rs[|rs| - 1], k);
      AssignsMeaning(rs[|rs| - 1], other);
      AssignmentAssigns(k, v, other);
      LastReplacedOther(rs[..|rs| - 1], k, v, other);
    }
  }

  /** The same for its last assignment. */
  lemma LastAssignedOther(rs: seq<string>, k: string, v: string, other: string)
    requires IsKey(k) && IsKey(other) && other != k
    ensures LastAssigned(Put(rs, k, v), other) == LastAssigned(rs, other)
  {
    AssignmentAssigns(k, v, other);
    LastReplacedOther(rs, k, v, other);
    assert (rs + [Assignment(k, v)])[..|rs|] == rs;
  }

  /** Setting one key leaves every line that does not assign it where it was, relative to the others. */
  lemma OtherLinesKept(rs: seq<string>, k: string, v: string)
    requires IsKey(k)
    ensures Filter(Put(rs, k, v), (l: string) => !Assigns(l, k)) == Filter(rs, (l: string) => !Assigns(l, k))
  {
    var other := (l: string) => !Assigns(l, k);
    AssignmentAssigns(k, v, k);
    if Assigned(rs, k) {
      FilterReplaced(rs, k, v, other);
    } else {
      FilterAppend(rs, [Assignment(k, v)], other);
      assert Filter([Assignment(k, v)], other) == [] by { assert [Assignment(k, v)][1..] == []; }
    }
  }

  lemma {:induction false} FilterReplaced(rs: seq<string>, k: string, v: string, other: string -> bool)
    requires forall l :: other(l) <==> !Assigns(l, k)
    requires !other(Assignment(k, v))
    ensures Filter(Replaced(rs, k, v), other) == Filter(rs, other)
  {
    if rs != [] {
      assert Replaced(rs, k, v)[1..] == Replaced(rs[1..], k, v);
      FilterReplaced(rs[1..], k, v, other);
    }
  }

  // ---------- Settled keys ----------

  /** The key is assigned, and every assignment gives it this value. */
  predicate Settled(rs: seq<string>, k: string, v: string) {
    Assigned(rs, k) && forall i :: 0 <= i < |rs| && Assigns(rs[i], k) ==> rs[i] == Assignment(k, v)
  }

  lemma PutSettles(rs: seq<string>, k: string, v: string)
    requires IsKey(k)
    ensures Settled(Put(rs, k, v), k, v)
  {
    AssignmentAssigns(k, v, k);
    var t := Put(rs, k, v);
    if Assigned(rs, k) {
      var i :| 0 <= i < |rs| && Assigns(rs[i], k);
      assert Assigns(t[i], k);
    } else {
      assert Assigns(t[|rs|], k);
    }
  }

  lemma PutKeepsSettled(rs: seq<string>, k: string, v: string, other: string, w: string)
    requires IsKey(k) && IsKey(other) && k != other && Settled(rs, other, w)
    ensures Settled(Put(rs, k, v), other, w)
  {
    AssignmentAssigns(k, v, other);
    var t := Put(rs, k, v);
    var i :| 0 <= i < |rs| && Assigns(rs[i], other);
    AssignsMeaning(rs[i], other);
    AssignsMeaning(rs[i], k);
    assert Assigns(t[i], other);
  }

  /** Setting a settled key to its value leaves the lines identical. */
  lemma PutSettledIdle(rs: seq<string>, k: string, v: string)
    requires Settled(rs, k, v)
    ensures Put(rs, k, v) == rs
  {
  }

  lemma PutIdempotent(rs: seq<string>, k: string, v: string)
    requires IsKey(k)
    ensures Put(Put(rs, k, v), k, v) == Put(rs, k, v)
  {
    PutSettles(rs, k, v);
    PutSettledIdle(Put(rs, k, v), k, v);
  }

  lemma {:induction false} SettledValue(rs: seq<string>, k: string, v: string)
    requires IsKey(k) && Settled(rs, k, v)
    ensures LastAssigned(rs, k) == v
  {
    AssignmentAssigns(k, v, k);
    var last, front := rs[|rs| - 1], rs[..|rs| - 1];
    if !Assigns(last, k) {
      var i :| 0 <= i < |rs| && Assigns(rs[i], k);
      assert Assigns(front[i], k);
      SettledValue(front, k, v);
    }
  }
}
