/** Rewriting image tags and scanning again: the scan finds what the rewriting intended. */
module ComposeRewrite {
  import opened Text
  import opened Versions
  import opened ComposeLines
  import opened LineScan
  import opened ComposeScan

  // ---------- One line ----------

  /** Removing trailing line feeds leaves the content, plus the break when that is another character. */
  lemma TrimmedLine(line: string, brk: char -> bool) returns (odd: string)
    requires IsLine(line, brk) && brk('\n')
    ensures TrimRight(line, IsNewline) == Content(line, brk) + odd
    ensures |odd| <= 1 && All(odd, brk) && Never(odd, IsNewline)
    ensures Never(Content(line, brk), brk)
    ensures odd == "" <==> line[|line| - 1] == '\n' || !brk(line[|line| - 1])
  {
    var c, last := Content(line, brk), line[|line| - 1];
    if last == '\n' {
      odd := "";
      assert c == "" || c[|c| - 1] == line[|c| - 1];
      assert line == c + [last];
      TrimRightPad(c, [last], IsNewline);
    } else if brk(last) {
      odd := [last];
      assert line == c + odd;
    } else {
      odd := "";
    }
  }

  /** A trailing blank joins the body when the reading has no closing quote, and the tail otherwise. */
  lemma ExtendReading(r: Reading, odd: string, sp: char -> bool) returns (r': Reading)
    requires r.Valid(sp) && r.Full(|r.gap|, sp) && All(odd, sp)
    requires Never(odd, IsQuote)
    ensures r'.Valid(sp) && r'.Full(|r'.gap|, sp) && r'.Text() == r.Text() + odd
    ensures r'.Pre() == r.Pre() && Strip(r'.body, sp) == Strip(r.body, sp)
    ensures r'.Post() == if r.close == "" then "" else r.Post() + odd
  {
    if r.close == "" {
      r' := r.(body := r.body + odd);
      TrimLeftAppend(r.body, odd, sp);
    } else {
      r' := r.(tail := r.tail + odd);
    }
    assert r'.Text() == r.Text() + odd;
  }

  lemma {:induction false} TrimLeftAppend(s: string, b: string, sp: char -> bool)
    requires All(b, sp)
    ensures Strip(s + b, sp) == Strip(s, sp)
  {
    var p, q := StripPieces(s, sp);
    var core := Strip(s, sp);
    assert s + b == p + core + (q + b);
    StripUnique(p, core, q + b, sp);
  }

  /** The same line around another body. */
  lemma ReplaceBody(r: Reading, s: string, sp: char -> bool)
    requires r.Valid(sp) && r.Full(|r.gap|, sp)
    requires s != "" && Never(s, IsQuote) && !sp(s[0])
    ensures var r' := r.(body := s); r'.Valid(sp) && r'.Full(|r'.gap|, sp)
  {
  }

  /** The rewritten line falls into one piece, or two when an odd break is left in front of the line feed. */
  lemma RewrittenPieces(u: string, odd: string, brk: char -> bool)
    requires Never(u, brk) && u != "" && |odd| <= 1 && All(odd, brk) && brk('\n')
    ensures SplitKeep(u + odd + "\n", brk) == if odd == "" then [u + "\n"] else [u + odd, "\n"]
  {
    if odd == "" {
      assert IsLine(u + "\n", brk) by { assert (u + "\n")[..|u|] == u; }
      SplitKeepLine(u + "\n", brk);
      assert u + odd + "\n" == u + "\n";
    } else {
      assert IsLine(u + odd, brk) by { assert (u + odd)[..|u|] == u; }
      SplitKeepLine(u + odd, brk);
      SplitKeepLine("\n", brk);
      SplitKeepAppend(u + odd, "\n", brk);
    }
  }

  /** A well-formed image line, met inside a service, is found with its body as the reference. */
  lemma StepOnImage(st: ScanState, indent: string, r: Reading, sp: char -> bool)
    requires Plain(sp) && All(indent, sp) && r.Valid(sp) && r.Full(|r.gap|, sp)
    requires Tight(r.body, sp) && st.inServices && st.service.Some?
    ensures Step(st, indent + "image:" + r.Text(), sp) == (st, Some(Hit(st.service.value, r.body)))
  {
    MatchBuilt(r, sp);
    ImageOfValue(indent, r.Text(), sp);
    SolidInside(r);
    OnlyImage(indent, r.Text(), |r.gap| + |r.open|, sp);
    StripTight(r.body, sp);
    StepMatched(st, indent + "image:" + r.Text(), sp);
  }

  lemma SolidInside(r: Reading)
    requires r.body != ""
    ensures |r.gap| + |r.open| < |r.Text()| && r.Text()[|r.gap| + |r.open|] == r.body[0]
  {
  }

  lemma StripTight(s: string, sp: char -> bool)
    requires Tight(s, sp)
    ensures Strip(s, sp) == s
  {
    assert [] + s + [] == s;
    StripUnique([], s, [], sp);
  }

  /** Inside a service, a line that only the image pattern matches is a find. */
  lemma StepMatched(st: ScanState, c: string, sp: char -> bool)
    ensures
      !IsServicesLine(c, sp) && ServiceHeading(c, sp).None? && MatchImage(c, sp).Some?
      && st.inServices && st.service.Some? ==>
      Step(st, c, sp) == (st, Some(Hit(st.service.value, Strip(MatchImage(c, sp).value.body, sp))))
  {
  }

  lemma StepOnBlankLine(st: ScanState, sp: char -> bool)
    ensures Step(st, "", sp) == (st, None)
  {
  }

  /** A find is a matched line inside a service. */
  lemma StepShape(st: ScanState, c: string, sp: char -> bool)
    ensures Step(st, c, sp).1.Some? ==>
      && MatchImage(c, sp).Some? && st.inServices && st.service.Some?
      && Step(st, c, sp) == (st, Some(Hit(st.service.value, Strip(MatchImage(c, sp).value.body, sp))))
  {
  }

  /** A find tells how its line reads. */
  lemma StepFound(st: ScanState, c: string, sp: char -> bool) returns (indent: string, r: Reading)
    requires Plain(sp) && Step(st, c, sp).1.Some?
    ensures var (next, hit) := Step(st, c, sp);
      && next == st && st.inServices && st.service.Some?
      && hit == Some(Hit(st.service.value, Strip(r.body, sp)))
    ensures All(indent, sp) && c == indent + "image:" + r.Text() && r.Valid(sp)
    ensures Strip(r.body, sp) != "" ==> r.Full(|r.gap|, sp)
  {
    StepShape(st, c, sp);
    indent, r := ImageSound(c, sp);
    if r.Starved(|r.gap| + 1, sp) { StripBlank(r.body, sp); }
  }

  lemma StripBlank(s: string, sp: char -> bool)
    requires All(s, sp)
    ensures Strip(s, sp) == ""
  {
    StripUnique(s, [], [], sp);
    assert s + [] + [] == s;
  }

  lemma StripNever(s: string, p: char -> bool, sp: char -> bool)
    requires Never(s, p)
    ensures Never(Strip(s, sp), p) && Tight(Strip(s, sp), sp)
  {
    var a, b := StripPieces(s, sp);
    var t := Strip(s, sp);
    assert forall k :: 0 <= k < |t| ==> t[k] == s[|a| + k];
  }

  lemma NameNever(ref: string, p: char -> bool, sp: char -> bool)
    requires Tight(ref, sp) && Never(ref, p) && SplitRef(ref, sp).1 != "latest"
    ensures Never(SplitRef(ref, sp).0, p)
  {
    var digest := TaggedRef(ref, sp);
    var name := SplitRef(ref, sp).0;
    assert forall k :: 0 <= k < |name| ==> name[k] == ref[k];
  }

  /** Characters of the new reference come from the old one or from the target. */
  lemma NewRefCharacters(body: string, target: string, p: char -> bool, sp: char -> bool)
    requires Never(body, p) && Never(target, p) && !p(':')
    requires SplitRef(Strip(body, sp), sp).1 != "latest"
    ensures Never(NewRef(Hit("", Strip(body, sp)), target, sp), p)
  {
    StripNever(body, p, sp);
    NameNever(Strip(body, sp), p, sp);
  }

  lemma EmptyRefHasNoTag(sp: char -> bool)
    ensures SplitRef("", sp).1 == "latest"
  {
  }

  /** The line ends with a break other than a line feed, and a closing quote keeps that break in place. */
  ghost predicate GainsLine(line: string, sp: char -> bool, brk: char -> bool) {
    && line != "" && brk(line[|line| - 1]) && line[|line| - 1] != '\n'
    && MatchImage(Content(line, brk), sp).Some? && MatchImage(Content(line, brk), sp).value.post != ""
  }

  /** What a target may hold: it is a tag, with no quote and no line break. */
  ghost predicate GoodTarget(target: string, sp: char -> bool, brk: char -> bool) {
    TagLike(target, sp) && Never(target, IsQuote) && Never(target, brk)
  }

  /** What is known of a found line whose reference carries a tag. */
  ghost predicate Line(st: ScanState, line: string, hit: Hit, indent: string, r: Reading, sp: char -> bool,
                       brk: char -> bool) {
    && Ordinary(sp, brk) && IsLine(line, brk) && All(indent, sp) && r.Valid(sp) && r.Full(|r.gap|, sp)
    && Content(line, brk) == indent + "image:" + r.Text() && Never(indent + "image:" + r.Text(), brk)
    && st.inServices && st.service == Some(hit.service) && hit.ref == Strip(r.body, sp)
    && SplitRef(hit.ref, sp).1 != "latest"
  }

  lemma FoundLine(st: ScanState, line: string, hit: Hit, sp: char -> bool, brk: char -> bool)
    returns (indent: string, r: Reading)
    requires Ordinary(sp, brk) && IsLine(line, brk) && Step(st, Content(line, brk), sp).1 == Some(hit)
    requires SplitRef(hit.ref, sp).1 != "latest"
    ensures Line(st, line, hit, indent, r, sp, brk)
    ensures GainsLine(line, sp, brk) <==> brk(line[|line| - 1]) && line[|line| - 1] != '\n' && r.close != ""
  {
    indent, r := StepFound(st, Content(line, brk), sp);
    EmptyRefHasNoTag(sp);
    var extra := TrimmedLine(line, brk);
    MatchBuilt(r, sp);
    ImageOfValue(indent, r.Text(), sp);
  }

  /** The new line is found with the new reference. */
  lemma NewLineFound(st: ScanState, line: string, hit: Hit, indent: string, r: Reading, target: string,
                     sp: char -> bool, brk: char -> bool)
    requires Line(st, line, hit, indent, r, sp, brk) && GoodTarget(target, sp, brk)
    ensures var s := NewRef(hit, target, sp); var u := indent + "image:" + r.(body := s).Text();
      Never(u, brk) && Step(st, u, sp) == (st, Some(Hit(hit.service, s)))
  {
    var s := NewRef(hit, target, sp);
    NewRefSplits(hit.ref, target, sp) by { var a, b := StripPieces(r.body, sp); }
    NewRefCharacters(r.body, target, IsQuote, sp);
    ReplaceBody(r, s, sp);
    StepOnImage(st, indent, r.(body := s), sp);
    NoBreakInside(indent + "image:", r, s, brk);
    NewRefCharacters(r.body, target, brk, sp);
  }

  /** The rewritten text around the odd break, if there is one. */
  lemma NewLineText(st: ScanState, line: string, hit: Hit, indent: string, r: Reading, target: string, sp: char -> bool,
                    brk: char -> bool)
    returns (odd: string)
    requires Line(st, line, hit, indent, r, sp, brk)
    ensures var u := indent + "image:" + r.(body := NewRef(hit, target, sp)).Text();
      RewriteLine(line, hit, target, sp) == Some(u + odd + "\n")
    ensures |odd| <= 1 && All(odd, brk)
    ensures odd != "" <==> brk(line[|line| - 1]) && line[|line| - 1] != '\n' && r.close != ""
  {
    var extra, r' := ExtendedLine(line, indent, r, sp, brk);
    odd := if r.close == "" then "" else extra;
    RewriteMatches(line, indent, r', hit, target, sp);
    AroundBody(indent + "image:", r, NewRef(hit, target, sp), r'.Post(), odd);
  }

  lemma ExtendedLine(line: string, indent: string, r: Reading, sp: char -> bool, brk: char -> bool)
    returns (extra: string, r': Reading)
    requires Ordinary(sp, brk) && IsLine(line, brk) && r.Valid(sp) && r.Full(|r.gap|, sp)
    requires Content(line, brk) == indent + "image:" + r.Text()
    ensures TrimRight(line, IsNewline) == indent + "image:" + r'.Text()
    ensures |extra| <= 1 && All(extra, brk) && (extra != "" <==> brk(line[|line| - 1]) && line[|line| - 1] != '\n')
    ensures r'.Valid(sp) && r'.Full(|r'.gap|, sp) && r'.Pre() == r.Pre() && Strip(r'.body, sp) == Strip(r.body, sp)
    ensures r'.Post() == r.Post() + if r.close == "" then "" else extra
  {
    extra := TrimmedLine(line, brk);
    r' := ExtendReading(r, extra, sp);
    NoPost(r, sp);
    Behind(indent + "image:", r.Text(), extra);
  }

  lemma NoPost(r: Reading, sp: char -> bool)
    requires r.Full(|r.gap|, sp)
    ensures r.close == "" ==> r.Post() == "" && r.Post() + "" == r.Post()
  {
  }

  lemma Behind(head: string, text: string, extra: string)
    ensures head + text + extra == head + (text + extra)
  {
  }

  lemma AroundBody(head: string, r: Reading, s: string, post: string, odd: string)
    requires post == r.Post() + odd
    ensures head + r.Pre() + s + post == head + r.(body := s).Text() + odd
  {
  }

  /** The rewritten text of a found line is `u`, perhaps the odd break, and a line feed; `u` is found in its turn. */
  lemma RewriteFound(st: ScanState, line: string, hit: Hit, target: string, sp: char -> bool, brk: char -> bool)
    returns (u: string, odd: string)
    requires Ordinary(sp, brk) && IsLine(line, brk) && Step(st, Content(line, brk), sp).1 == Some(hit)
    requires SplitRef(hit.ref, sp).1 != "latest" && GoodTarget(target, sp, brk)
    ensures RewriteLine(line, hit, target, sp) == Some(u + odd + "\n")
    ensures u != "" && Never(u, brk) && |odd| <= 1 && All(odd, brk)
    ensures Step(st, u, sp) == (st, Some(Hit(hit.service, NewRef(hit, target, sp))))
    ensures odd != "" <==> GainsLine(line, sp, brk)
  {
    var indent, r := FoundLine(st, line, hit, sp, brk);
    NewLineFound(st, line, hit, indent, r, target, sp, brk);
    odd := NewLineText(st, line, hit, indent, r, target, sp, brk);
    u := indent + "image:" + r.(body := NewRef(hit, target, sp)).Text();
  }

  lemma RewriteMatches(line: string, indent: string, r: Reading, hit: Hit, target: string, sp: char -> bool)
    requires Plain(sp) && All(indent, sp) && r.Valid(sp) && r.Full(|r.gap|, sp)
    requires TrimRight(line, IsNewline) == indent + "image:" + r.Text() && Strip(r.body, sp) == hit.ref
    ensures RewriteLine(line, hit, target, sp) ==
      Some(indent + "image:" + r.Pre() + NewRef(hit, target, sp) + r.Post() + "\n")
  {
    MatchBuilt(r, sp);
    ImageOfValue(indent, r.Text(), sp);
  }

  lemma NeverConcat(a: string, b: string, p: char -> bool)
    ensures Never(a + b, p) <==> Never(a, p) && Never(b, p)
  {
    var s := a + b;
    assert forall k :: 0 <= k < |a| ==> s[k] == a[k];
    assert forall k :: 0 <= k < |b| ==> s[|a| + k] == b[k];
  }

  lemma ReadingNever(r: Reading, p: char -> bool)
    ensures Never(r.Text(), p) <==>
      Never(r.gap, p) && Never(r.open, p) && Never(r.body, p) && Never(r.close, p) && Never(r.tail, p)
  {
    NeverConcat(r.close, r.tail, p);
    NeverConcat(r.body, r.close + r.tail, p);
    NeverConcat(r.open, r.body + (r.close + r.tail), p);
    NeverConcat(r.gap, r.Rest(), p);
  }

  /** Replacing the body by one without breaks brings no break into the line. */
  lemma NoBreakInside(head: string, r: Reading, s: string, brk: char -> bool)
    requires Never(head + r.Text(), brk)
    ensures Never(r.body, brk)
    ensures Never(s, brk) ==> Never(head + r.(body := s).Text(), brk)
  {
    NeverConcat(head, r.Text(), brk);
    ReadingNever(r, brk);
    ReadingNever(r.(body := s), brk);
    NeverConcat(head, r.(body := s).Text(), brk);
  }

  // ---------- Whole files ----------

  /** Every target proposed is fit to be written, and only for references that carry a tag. */
  ghost predicate Suits(decide: Hit -> Option<string>, sp: char -> bool, brk: char -> bool) {
    forall hit :: decide(hit).Some? ==> SplitRef(hit.ref, sp).1 != "latest" && GoodTarget(decide(hit).value, sp, brk)
  }

  lemma SaneSuits(decide: Hit -> Option<string>, sp: char -> bool, brk: char -> bool)
    requires Ordinary(sp, brk) && Sane(decide, sp)
    ensures Suits(decide, sp, brk)
  {
    forall hit | decide(hit).Some?
      ensures SplitRef(hit.ref, sp).1 != "latest" && GoodTarget(decide(hit).value, sp, brk)
    {
      StableIsTagLike(decide(hit).value, sp);
      StableIsTagLike(SplitRef(hit.ref, sp).1, sp);
    }
  }

  lemma ComposeKeeps(st: ScanState, line: string, decide: Hit -> Option<string>, sp: char -> bool, brk: char -> bool)
    requires Ordinary(sp, brk) && Suits(decide, sp, brk) && IsLine(line, brk) && Stepper(sp, brk)(st, line).1.Some?
    ensures Keeps(st, line, Stepper(sp, brk), Editor(decide, Changer(sp)), Goal(decide, sp), brk)
  {
    var hit := Step(st, Content(line, brk), sp).1.value;
    var indent, r := StepFound(st, Content(line, brk), sp);
    if decide(hit).Some? {
      var u, odd := RewriteFound(st, line, hit, decide(hit).value, sp, brk);
      RewrittenPieces(u, odd, brk);
      PiecesRead(st, u, odd, sp, brk);
      KeepsIntro(st, line, st, hit, SplitKeep(u + odd + "\n", brk), Stepper(sp, brk), Editor(decide, Changer(sp)),
                 Goal(decide, sp), brk);
    } else {
      SplitKeepLine(line, brk);
      KeepsIntro(st, line, st, hit, [line], Stepper(sp, brk), Editor(decide, Changer(sp)), Goal(decide, sp), brk);
    }
  }

  /** The machine reads `u` off the first piece, and nothing off the line feed that may follow. */
  lemma PiecesRead(st: ScanState, u: string, odd: string, sp: char -> bool, brk: char -> bool)
    requires u != "" && Never(u, brk) && |odd| <= 1 && All(odd, brk) && brk('\n')
    ensures var pieces := if odd == "" then [u + "\n"] else [u + odd, "\n"];
      && Stepper(sp, brk)(st, pieces[0]) == Step(st, u, sp)
      && forall k :: 1 <= k < |pieces| ==> Stepper(sp, brk)(st, pieces[k]) == (st, None)
  {
    StepOnBlankLine(st, sp);
    assert Content(u + "\n", brk) == u && Content("\n", brk) == "";
    assert odd != "" ==> Content(u + odd, brk) == u;
  }

  lemma ComposeFaithful(decide: Hit -> Option<string>, sp: char -> bool, brk: char -> bool)
    requires Ordinary(sp, brk) && Suits(decide, sp, brk)
    ensures Faithful(Stepper(sp, brk), Editor(decide, Changer(sp)), Goal(decide, sp), brk)
    ensures forall line: string, h: Hit :: Terminated(line, brk) ==>
      Terminated(Editor(decide, Changer(sp))(line, h), brk)
  {
    forall st: ScanState, line: string | IsLine(line, brk) && Stepper(sp, brk)(st, line).1.Some?
      ensures Keeps(st, line, Stepper(sp, brk), Editor(decide, Changer(sp)), Goal(decide, sp), brk)
    {
      ComposeKeeps(st, line, decide, sp, brk);
    }
    forall line: string, h: Hit | Terminated(line, brk) ensures Terminated(Editor(decide, Changer(sp))(line, h), brk) {
      EditTerminated(line, h, decide, sp, brk);
    }
  }

  lemma EditTerminated(line: string, h: Hit, decide: Hit -> Option<string>, sp: char -> bool, brk: char -> bool)
    requires Terminated(line, brk) && brk('\n')
    ensures Terminated(Editor(decide, Changer(sp))(line, h), brk)
  {
    var c := if decide(h).Some? then RewriteLine(line, h, decide(h).value, sp) else None;
    if c.Some? { assert c.value[|c.value| - 1] == '\n'; }
  }

  function RewrittenLines(text: string, decide: Hit -> Option<string>, sp: char -> bool,
                          brk: char -> bool): (r: seq<string>)
    ensures |r| == |SplitKeep(text, brk)|
  {
    Rewrite(SplitKeep(text, brk), START, Stepper(sp, brk), Editor(decide, Changer(sp)))
  }

  /** The text after one pass that moves every find for which `decide` names a target. */
  function Pass(text: string, decide: Hit -> Option<string>, sp: char -> bool, brk: char -> bool): string {
    Concat(RewrittenLines(text, decide, sp, brk))
  }

  /** Scanning the rewritten file finds every reference again, in order, with its new tag in place. */
  lemma RescanFindsGoals(text: string, decide: Hit -> Option<string>, sp: char -> bool, brk: char -> bool)
    requires Ordinary(sp, brk) && Suits(decide, sp, brk)
    ensures Corresponds(Entries(text, sp, brk), Entries(Pass(text, decide, sp, brk), sp, brk),
                        RewrittenLines(text, decide, sp, brk), 1, 0, Goal(decide, sp), brk)
  {
    ComposeFaithful(decide, sp, brk);
    RewriteThenRescan(text, START, Stepper(sp, brk), Editor(decide, Changer(sp)), Goal(decide, sp), brk);
  }

  /** This find is moved, and its line becomes two. */
  ghost predicate Widens(text: string, e: Found<Hit>, decide: Hit -> Option<string>, sp: char -> bool,
                         brk: char -> bool) {
    var lines := SplitKeep(text, brk);
    decide(e.hit).Some? && 1 <= e.lineNo <= |lines| && GainsLine(lines[e.lineNo - 1], sp, brk)
  }

  /** Where a find is and what its line becomes. */
  lemma EntryAt(text: string, decide: Hit -> Option<string>, j: nat, sp: char -> bool, brk: char -> bool)
    returns (st: ScanState)
    requires j < |Entries(text, sp, brk)|
    ensures var e, lines, r := Entries(text, sp, brk)[j], SplitKeep(text, brk), RewrittenLines(text, decide, sp, brk);
      && 1 <= e.lineNo <= |lines| && IsLine(lines[e.lineNo - 1], brk)
      && Stepper(sp, brk)(st, lines[e.lineNo - 1]).1 == Some(e.hit)
      && r[e.lineNo - 1] == Editor(decide, Changer(sp))(lines[e.lineNo - 1], e.hit)
  {
    SplitKeepSound(text, brk);
    st := RewriteAt(SplitKeep(text, brk), START, 1, Stepper(sp, brk), Editor(decide, Changer(sp)), j);
  }

  lemma PiecesAt(text: string, decide: Hit -> Option<string>, j: nat, sp: char -> bool, brk: char -> bool)
    requires Ordinary(sp, brk) && Suits(decide, sp, brk) && j < |Entries(text, sp, brk)|
    ensures var e, r := Entries(text, sp, brk)[j], RewrittenLines(text, decide, sp, brk);
      && 1 <= e.lineNo <= |r|
      && r[e.lineNo - 1] != ""
      && |SplitKeep(r[e.lineNo - 1], brk)| == if Widens(text, e, decide, sp, brk) then 2 else 1
  {
    var e := Entries(text, sp, brk)[j];
    var st := EntryAt(text, decide, j, sp, brk);
    EditPieces(st, SplitKeep(text, brk)[e.lineNo - 1], e.hit, decide, sp, brk);
  }

  /** A found line, rewritten or not, stays one line, or becomes two. */
  lemma EditPieces(st: ScanState, line: string, hit: Hit, decide: Hit -> Option<string>, sp: char -> bool,
                   brk: char -> bool)
    requires Ordinary(sp, brk) && Suits(decide, sp, brk) && IsLine(line, brk)
      && Stepper(sp, brk)(st, line).1 == Some(hit)
    ensures var edited := Editor(decide, Changer(sp))(line, hit);
      edited != "" && |SplitKeep(edited, brk)| == if decide(hit).Some? && GainsLine(line, sp, brk) then 2 else 1
  {
    if decide(hit).Some? {
      var u, odd := RewriteFound(st, line, hit, decide(hit).value, sp, brk);
      RewrittenPieces(u, odd, brk);
    } else {
      SplitKeepLine(line, brk);
    }
  }

  lemma PiecesElsewhere(text: string, decide: Hit -> Option<string>, i: nat, sp: char -> bool, brk: char -> bool)
    requires i < |SplitKeep(text, brk)| && forall e <- Entries(text, sp, brk) :: e.lineNo != i + 1
    ensures var r := RewrittenLines(text, decide, sp, brk);
      r[i] == SplitKeep(text, brk)[i] != "" && |SplitKeep(r[i], brk)| == 1
  {
    var lines := SplitKeep(text, brk);
    SplitKeepSound(text, brk);
    assert IsLine(lines[i], brk);
    RewriteElsewhere(lines, START, 1, Stepper(sp, brk), Editor(decide, Changer(sp)), i);
    SplitKeepLine(lines[i], brk);
  }

  lemma OnePieceUnless(text: string, decide: Hit -> Option<string>, i: nat, sp: char -> bool, brk: char -> bool)
    requires Ordinary(sp, brk) && Suits(decide, sp, brk) && i < |SplitKeep(text, brk)|
    ensures var r, es := RewrittenLines(text, decide, sp, brk), Entries(text, sp, brk);
      && r[i] != ""
      && (|SplitKeep(r[i], brk)| == 1 ||
          exists j :: 0 <= j < |es| && es[j].lineNo == i + 1 && Widens(text, es[j], decide, sp, brk))
  {
    var es := Entries(text, sp, brk);
    if j :| 0 <= j < |es| && es[j].lineNo == i + 1 {
      PiecesAt(text, decide, j, sp, brk);
    } else {
      PiecesElsewhere(text, decide, i, sp, brk);
    }
  }

  lemma NoLineGained(text: string, decide: Hit -> Option<string>, k: nat, sp: char -> bool, brk: char -> bool)
    requires Ordinary(sp, brk) && Suits(decide, sp, brk) && k < |Entries(text, sp, brk)|
    ensures var es, r := Entries(text, sp, brk), RewrittenLines(text, decide, sp, brk);
      && 1 <= es[k].lineNo <= |r|
      && (Extra(r, es[k].lineNo - 1, brk) == 0 <==> forall j :: 0 <= j < k ==> !Widens(text, es[j], decide, sp, brk))
  {
    var es := Entries(text, sp, brk);
    var r := RewrittenLines(text, decide, sp, brk);
    ScanLineNumbers(SplitKeep(text, brk), START, 1, Stepper(sp, brk));
    assert InOrder(es, 1, 1 + |r|);
    var two := (e: Found<Hit>) => Widens(text, e, decide, sp, brk);
    forall i | 0 <= i < |r| ensures r[i] != "" && (Single(r[i], brk) || IsTwo(es, i, two)) {
      OnePieceUnless(text, decide, i, sp, brk);
    }
    forall j | 0 <= j < |es| && two(es[j]) ensures !Single(r[es[j].lineNo - 1], brk) {
      PiecesAt(text, decide, j, sp, brk);
    }
    ExtraBefore(es, r, k, two, brk);
  }

  /** A find keeps its line number exactly when no find before it is moved on a line that becomes two. */
  lemma LineNumberKept(text: string, decide: Hit -> Option<string>, k: nat, sp: char -> bool, brk: char -> bool)
    requires Ordinary(sp, brk) && Suits(decide, sp, brk) && k < |Entries(text, sp, brk)|
    ensures var es, es' := Entries(text, sp, brk), Entries(Pass(text, decide, sp, brk), sp, brk);
      && k < |es'|
      && (es'[k].lineNo == es[k].lineNo <==> forall j :: 0 <= j < k ==> !Widens(text, es[j], decide, sp, brk))
  {
    RescanFindsGoals(text, decide, sp, brk);
    NoLineGained(text, decide, k, sp, brk);
  }

  // ---------- The update pass as the script runs it ----------

  /** Collect the updates by line number, then overwrite lines; the file is left alone when nothing changes. */
  method ApplyUpdates(text: string, audited: seq<Audited<Hit>>, sp: char -> bool, brk: char -> bool)
    returns (result: string, changes: nat)
    ensures forall decide :: Suits(decide, sp, brk) && audited == AuditAll(Entries(text, sp, brk), decide) ==>
      result == Pass(text, decide, sp, brk)
    ensures changes == CountUpdates(SplitKeep(text, brk), |SplitKeep(text, brk)|, UpdateMap(audited), Changer(sp))
    ensures changes == 0 ==> result == text
  {
    var updates := CollectUpdates(audited);
    var before := SplitKeep(text, brk);
    var lines;
    lines, changes := OverwriteLines(before, updates, Changer(sp));
    SplitKeepSound(text, brk);
    result := if changes > 0 then Concat(lines) else text;
    forall decide | Suits(decide, sp, brk) && audited == AuditAll(Entries(text, sp, brk), decide)
      ensures lines == RewrittenLines(text, decide, sp, brk)
    {
      TableIsPass(text, decide, lines, sp, brk);
    }
  }

  /** Looking every line up in the table of updates rewrites just what the scan decided. */
  lemma TableIsPass(text: string, decide: Hit -> Option<string>, lines: seq<string>, sp: char -> bool,
                    brk: char -> bool)
    requires Suits(decide, sp, brk) && |lines| == |SplitKeep(text, brk)|
    requires forall i :: 0 <= i < |lines| ==>
      lines[i] == UpdatedLine(SplitKeep(text, brk)[i], i + 1,
                              UpdateMap(AuditAll(Entries(text, sp, brk), decide)), Changer(sp))
    ensures lines == RewrittenLines(text, decide, sp, brk)
  {
    NoEmptyTargets(Entries(text, sp, brk), decide, sp, brk);
    LookedUpIsRewrite(SplitKeep(text, brk), lines, START, Stepper(sp, brk), decide, Changer(sp));
  }

  lemma NoEmptyTargets(es: seq<Found<Hit>>, decide: Hit -> Option<string>, sp: char -> bool, brk: char -> bool)
    requires Suits(decide, sp, brk)
    ensures forall k :: 0 <= k < |es| ==> decide(es[k].hit) != Some("")
  {
  }
}
