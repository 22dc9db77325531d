/** What the compose-file scanner finds, said about the lines of the file and not about the scanner. */
module ComposeMeaning {
  import opened Text
  import opened ComposeLines
  import opened LineScan
  import opened ComposeScan

  // ---------- The patterns ----------

  lemma BlankMeaning(s: string, sp: char -> bool)
    ensures Blank(s, sp) <==> All(s, sp)
  {
    if All(s, sp) { SpanUnique(s, sp, |s|); }
  }

  /** Nothing but blanks around the word, which starts at `i`. */
  ghost predicate ServicesAt(line: string, i: nat, sp: char -> bool) {
    i + 9 <= |line| && All(line[..i], sp) && line[i..i + 9] == "services:" && All(line[i + 9..], sp)
  }

  lemma ServicesLineMeaning(line: string, sp: char -> bool)
    requires Plain(sp)
    ensures IsServicesLine(line, sp) <==> exists i: nat :: ServicesAt(line, i, sp)
  {
    var k := Span(line, sp);
    if IsServicesLine(line, sp) {
      assert line[k..k + 9] == line[k..][..9] == "services:";
      BlankMeaning(line[k + 9..], sp);
      assert ServicesAt(line, k, sp);
    }
    if i: nat :| ServicesAt(line, i, sp) { ServicesRead(line, i, sp); }
  }

  lemma ServicesRead(line: string, i: nat, sp: char -> bool)
    requires Plain(sp) && ServicesAt(line, i, sp)
    ensures IsServicesLine(line, sp)
  {
    assert line[i] == line[i..i + 9][0] == 's';
    assert forall j :: 0 <= j < i ==> line[j] == line[..i][j];
    SpanUnique(line, sp, i);
    assert line[i..][..9] == line[i..i + 9];
    BlankMeaning(line[i + 9..], sp);
  }

  /** Two spaces, a name of letters, digits, underscores, dots and hyphens, a colon, and blanks. */
  ghost predicate Heads(line: string, name: string, sp: char -> bool) {
    && |name| > 0
    && (forall c <- name :: 'A' <= c <= 'Z' || 'a' <= c <= 'z' || '0' <= c <= '9' || c == '_' || c == '.' || c == '-')
    && |line| >= |name| + 3 && line[..|name| + 3] == "  " + name + ":" && All(line[|name| + 3..], sp)
  }

  lemma HeadingMeaning(line: string, name: string, sp: char -> bool)
    ensures ServiceHeading(line, sp) == Some(name) <==> Heads(line, name, sp)
  {
    if ServiceHeading(line, sp) == Some(name) {
      var n := Span(line[2..], IsNameChar);
      assert line[..n + 3] == line[..2] + line[2..2 + n] + [line[2 + n]];
      BlankMeaning(line[3 + n..], sp);
    }
    if Heads(line, name, sp) { HeadingRead(line, name, sp); }
  }

  lemma HeadingRead(line: string, name: string, sp: char -> bool)
    requires Heads(line, name, sp)
    ensures ServiceHeading(line, sp) == Some(name)
  {
    var n, start := |name|, "  " + name + ":";
    assert forall j :: 0 <= j < n + 3 ==> line[j] == start[j];
    assert line[2..2 + n] == name;
    assert forall j :: 0 <= j < n ==> line[2..][j] == name[j] && name[j] in name;
    assert line[2 + n] == ':' && line[2..][n] == ':';
    SpanUnique(line[2..], IsNameChar, n);
    BlankMeaning(line[n + 3..], sp);
  }

  // ---------- The lines ----------

  /** The lines of a text without their breaks. */
  function Contents(text: string, brk: char -> bool): (ls: seq<string>)
    ensures |ls| == |SplitKeep(text, brk)|
  {
    var lines := SplitKeep(text, brk);
    seq(|lines|, i requires 0 <= i < |lines| => Content(lines[i], brk))
  }

  /** Put together again with one break behind each, except perhaps the last, they are the text. */
  lemma ContentsMeaning(text: string, brk: char -> bool, i: nat)
    requires i < |Contents(text, brk)|
    ensures var line, lines := Contents(text, brk)[i], SplitKeep(text, brk);
      && Never(line, brk) && Concat(lines) == text
      && if Terminated(lines[i], brk) then |lines[i]| == |line| + 1 && line <= lines[i]
         else i + 1 == |lines| && lines[i] == line
  {
    SplitKeepSound(text, brk);
    assert SplitKeep(text, brk)[i] in SplitKeep(text, brk);
  }

  // ---------- What is found ----------

  /** A line that starts a services section or a service. */
  ghost predicate Marks(line: string, sp: char -> bool) {
    IsServicesLine(line, sp) || ServiceHeading(line, sp).Some?
  }

  /** A services line stands above line `k`. */
  ghost predicate InServices(ls: seq<string>, k: nat, sp: char -> bool) {
    exists j :: 0 <= j < k <= |ls| && IsServicesLine(ls[j], sp)
  }

  /** Line `i` starts service `name` under a services line. */
  ghost predicate StartsAt(ls: seq<string>, i: nat, name: string, sp: char -> bool) {
    && i < |ls| && ServiceHeading(ls[i], sp) == Some(name) && !IsServicesLine(ls[i], sp)
    && InServices(ls, i, sp)
  }

  /** Line `k` belongs to service `name`: its heading stands above it with neither heading nor services line between. */
  ghost predicate Belongs(ls: seq<string>, k: nat, name: string, sp: char -> bool) {
    exists i: nat :: i < k <= |ls| && StartsAt(ls, i, name, sp) && forall m :: i < m < k ==> !Marks(ls[m], sp)
  }

  /** Line `k` shows image `ref` of service `name`. */
  ghost predicate Shows(ls: seq<string>, k: nat, name: string, ref: string, sp: char -> bool) {
    && k < |ls| && !Marks(ls[k], sp) && Belongs(ls, k, name, sp)
    && MatchImage(ls[k], sp).Some? && Strip(MatchImage(ls[k], sp).value.body, sp) == ref
  }

  ghost predicate Means(st: ScanState, ls: seq<string>, k: nat, sp: char -> bool) {
    && (st.inServices <==> InServices(ls, k, sp))
    && forall name :: st.service == Some(name) <==> Belongs(ls, k, name, sp)
  }

  lemma ServicesNext(ls: seq<string>, k: nat, sp: char -> bool)
    requires k < |ls|
    ensures InServices(ls, k + 1, sp) <==> InServices(ls, k, sp) || IsServicesLine(ls[k], sp)
  {
  }

  lemma BelongsNext(ls: seq<string>, k: nat, name: string, sp: char -> bool)
    requires k < |ls|
    ensures Belongs(ls, k + 1, name, sp) <==>
      StartsAt(ls, k, name, sp) || (Belongs(ls, k, name, sp) && !Marks(ls[k], sp))
  {
    if Belongs(ls, k + 1, name, sp) {
      var i: nat :| i < k + 1 && StartsAt(ls, i, name, sp) && forall m :: i < m < k + 1 ==> !Marks(ls[m], sp);
      if i < k { assert Belongs(ls, k, name, sp); }
    }
  }

  lemma MeansNext(st: ScanState, ls: seq<string>, k: nat, sp: char -> bool)
    requires k < |ls| && Means(st, ls, k, sp)
    ensures Means(Step(st, ls[k], sp).0, ls, k + 1, sp)
  {
    ServicesNext(ls, k, sp);
    forall name ensures Step(st, ls[k], sp).0.service == Some(name) <==> Belongs(ls, k + 1, name, sp) {
      BelongsNext(ls, k, name, sp);
      if !st.inServices && Belongs(ls, k, name, sp) { assert InServices(ls, k, sp); }
    }
  }

  /** The scanner's variables after the first `k` lines. */
  ghost function After(text: string, k: nat, sp: char -> bool, brk: char -> bool): ScanState
    requires k <= |SplitKeep(text, brk)|
  {
    StateAt(SplitKeep(text, brk), START, k, Stepper(sp, brk))
  }

  lemma {:induction false} AfterMeans(text: string, k: nat, sp: char -> bool, brk: char -> bool)
    requires k <= |SplitKeep(text, brk)|
    ensures Means(After(text, k, sp, brk), Contents(text, brk), k, sp)
  {
    if k > 0 {
      AfterMeans(text, k - 1, sp, brk);
      AfterNext(text, k - 1, sp, brk);
    }
  }

  lemma AfterNext(text: string, k: nat, sp: char -> bool, brk: char -> bool)
    requires k < |SplitKeep(text, brk)|
    requires Means(After(text, k, sp, brk), Contents(text, brk), k, sp)
    ensures Means(After(text, k + 1, sp, brk), Contents(text, brk), k + 1, sp)
  {
    MeansNext(After(text, k, sp, brk), Contents(text, brk), k, sp);
  }

  lemma StepShows(st: ScanState, ls: seq<string>, k: nat, h: Hit, sp: char -> bool)
    requires k < |ls| && Means(st, ls, k, sp)
    ensures Step(st, ls[k], sp).1 == Some(h) <==> Shows(ls, k, h.service, h.ref, sp)
  {
    assert Belongs(ls, k, h.service, sp) ==> InServices(ls, k, sp);
  }

  /** Exactly the lines that show an image under a service are entries, each with its number, service and reference. */
  lemma EntriesMeaning(text: string, k: nat, name: string, ref: string, sp: char -> bool, brk: char -> bool)
    ensures Found(k + 1, Hit(name, ref)) in Entries(text, sp, brk) <==> Shows(Contents(text, brk), k, name, ref, sp)
  {
    ScanMember(SplitKeep(text, brk), START, 1, Stepper(sp, brk), k, Hit(name, ref));
    if k < |Contents(text, brk)| {
      AfterMeans(text, k, sp, brk);
      StepShows(After(text, k, sp, brk), Contents(text, brk), k, Hit(name, ref), sp);
    }
  }

  /** And they come in the order of the lines, each once. */
  lemma EntriesOrdered(text: string, sp: char -> bool, brk: char -> bool)
    ensures var es := Entries(text, sp, brk);
      && (forall j, k :: 0 <= j < k < |es| ==> es[j].lineNo < es[k].lineNo)
      && (forall k :: 0 <= k < |es| ==> 1 <= es[k].lineNo <= |Contents(text, brk)|)
  {
    ScanLineNumbers(SplitKeep(text, brk), START, 1, Stepper(sp, brk));
  }
}
