/** A compose file on which moving one image changes the line number of the next. */
module ComposeExample {
  import opened Text
  import opened ComposeLines
  import opened LineScan
  import opened ComposeScan
  import opened ComposeRewrite

  const QUOTED := Reading(" ", "\"", "x:1.0.0", "\"", "")
  const BARE := Reading(" ", "", "y:1.0.0", "", "")

  /** A quoted image line that ends with a vertical tab, and another image line below it. */
  function LinesOf(quoted: string, bare: string): seq<string> {
    ["services:\n", "  a:\n", quoted + "\U{b}", bare + "\n"]
  }

  function QuotedLine(): string { "    " + "image:" + QUOTED.Text() }
  function BareLine(): string { "    " + "image:" + BARE.Text() }

  lemma StepServices(st: ScanState, sp: char -> bool)
    requires Plain(sp)
    ensures Step(st, "services:", sp) == (ScanState(true, None), None)
  {
    assert Span("services:", sp) == 0;
    assert "services:"[9..] == "";
  }

  lemma StepHeading(sp: char -> bool)
    requires Plain(sp)
    ensures Step(ScanState(true, None), "  a:", sp) == (ScanState(true, Some("a")), None)
  {
    var line := "  a:";
    SpanUnique(line, sp, 2);
    assert line[2..] == "a:";
    assert Span("a:", IsNameChar) == 1 by { SpanUnique("a:", IsNameChar, 1); }
    assert line[4..] == "" && line[2..3] == "a";
  }

  lemma QuotedReads(sp: char -> bool)
    requires Plain(sp)
    ensures QUOTED.Valid(sp) && QUOTED.Full(1, sp) && Tight(QUOTED.body, sp) && |QUOTED.gap| == 1 && QUOTED.Post() != ""
  {
  }

  lemma BareReads(sp: char -> bool)
    requires Plain(sp)
    ensures BARE.Valid(sp) && BARE.Full(1, sp) && Tight(BARE.body, sp) && |BARE.gap| == 1
  {
    assert BARE.Rest()[0] == 'y';
  }

  /** What an image line does, on a reading known only to be well formed. */
  lemma StepImage(r: Reading, sp: char -> bool)
    requires Plain(sp) && r.Valid(sp) && r.Full(|r.gap|, sp) && Tight(r.body, sp)
    ensures var st := ScanState(true, Some("a"));
      Step(st, "    " + "image:" + r.Text(), sp) == (st, Some(Hit("a", r.body)))
  {
    assert All("    ", sp);
    StepOnImage(ScanState(true, Some("a")), "    ", r, sp);
  }

  lemma MatchesImage(r: Reading, sp: char -> bool)
    requires Plain(sp) && r.Valid(sp) && r.Full(|r.gap|, sp)
    ensures MatchImage("    " + "image:" + r.Text(), sp).Some?
    ensures MatchImage("    " + "image:" + r.Text(), sp).value.post == r.Post()
  {
    assert All("    ", sp);
    MatchBuilt(r, sp);
    ImageOfValue("    ", r.Text(), sp);
  }

  /** The four steps of the scan, on lines known only by what they do. */
  lemma ScanFour(lines: seq<string>, s1: ScanState, s2: ScanState, h3: Hit, h4: Hit,
                 step: (ScanState, string) -> (ScanState, Option<Hit>))
    requires |lines| == 4
    requires step(START, lines[0]) == (s1, None) && step(s1, lines[1]) == (s2, None)
    requires step(s2, lines[2]) == (s2, Some(h3)) && step(s2, lines[3]) == (s2, Some(h4))
    ensures Scan(lines, START, 1, step) == [Found(3, h3), Found(4, h4)]
  {
    var l1, l2, l3 := lines[1..], lines[1..][1..], lines[1..][1..][1..];
    assert l3[1..] == [] && l3[0] == lines[3] && l2[0] == lines[2] && l1[0] == lines[1];
    assert Scan(l3, s2, 4, step) == [Found(4, h4)] + Scan(l3[1..], s2, 5, step);
    assert Scan(l2, s2, 3, step) == [Found(3, h3)] + Scan(l3, s2, 4, step);
    assert Scan(l1, s1, 2, step) == Scan(l2, s2, 3, step);
  }

  lemma LineShape(content: string, last: char, brk: char -> bool)
    requires Never(content, brk) && brk(last)
    ensures IsLine(content + [last], brk) && Terminated(content + [last], brk)
      && Content(content + [last], brk) == content
  {
    assert (content + [last])[..|content|] == content;
  }

  /** Characters from `!` to `~` and the space do not break lines. */
  lemma PrintableNever(s: string, sp: char -> bool, brk: char -> bool)
    requires Ordinary(sp, brk) && !brk(' ') && forall i :: 0 <= i < |s| ==> ' ' <= s[i] <= '~'
    ensures Never(s, brk)
  {
  }

  lemma HeadingsNever(sp: char -> bool, brk: char -> bool)
    requires Ordinary(sp, brk) && !brk(' ')
    ensures Never("services:", brk) && Never("  a:", brk)
  {
    PrintableNever("services:", sp, brk);
    PrintableNever("  a:", sp, brk);
  }

  lemma QuotedNever(sp: char -> bool, brk: char -> bool)
    requires Ordinary(sp, brk) && !brk(' ')
    ensures Never(QuotedLine(), brk)
  {
    PrintableNever(QuotedLine(), sp, brk);
  }

  lemma BareNever(sp: char -> bool, brk: char -> bool)
    requires Ordinary(sp, brk) && !brk(' ')
    ensures Never(BareLine(), brk)
  {
    PrintableNever(BareLine(), sp, brk);
  }

  /** Four lines, whatever is on them, are cut where their breaks are. */
  lemma CutFour(a: string, b: string, c: string, d: string, last: char, odd: char, brk: char -> bool)
    requires Never(a, brk) && Never(b, brk) && Never(c, brk) && Never(d, brk) && brk(last) && brk(odd)
    ensures var lines := [a + [last], b + [last], c + [odd], d + [last]];
      && SplitKeep(Concat(lines), brk) == lines
      && Content(lines[0], brk) == a && Content(lines[1], brk) == b
      && Content(lines[2], brk) == c && Content(lines[3], brk) == d
  {
    LineShape(a, last, brk);
    LineShape(b, last, brk);
    LineShape(c, odd, brk);
    LineShape(d, last, brk);
    SplitKeepConcat([a + [last], b + [last], c + [odd], d + [last]], brk);
  }

  lemma ExampleLines(sp: char -> bool, brk: char -> bool)
    requires Ordinary(sp, brk) && !brk(' ') && brk('\U{b}')
    ensures var lines := LinesOf(QuotedLine(), BareLine());
      && SplitKeep(Concat(lines), brk) == lines
      && Content(lines[0], brk) == "services:" && Content(lines[1], brk) == "  a:"
      && Content(lines[2], brk) == QuotedLine() && Content(lines[3], brk) == BareLine()
  {
    HeadingsNever(sp, brk);
    QuotedNever(sp, brk);
    BareNever(sp, brk);
    assert "services:\n" == "services:" + ['\n'] && "  a:\n" == "  a:" + ['\n'];
    CutFour("services:", "  a:", QuotedLine(), BareLine(), '\n', '\U{b}', brk);
  }

  lemma ExampleEntries(sp: char -> bool, brk: char -> bool)
    requires Ordinary(sp, brk) && !brk(' ') && brk('\U{b}')
    ensures Entries(Concat(LinesOf(QuotedLine(), BareLine())), sp, brk)
      == [Found(3, Hit("a", "x:1.0.0")), Found(4, Hit("a", "y:1.0.0"))]
  {
    ExampleLines(sp, brk);
    StepServices(START, sp);
    StepHeading(sp);
    QuotedReads(sp);
    BareReads(sp);
    StepImage(QUOTED, sp);
    StepImage(BARE, sp);
    ScanFour(LinesOf(QuotedLine(), BareLine()), ScanState(true, None), ScanState(true, Some("a")),
      Hit("a", "x:1.0.0"), Hit("a", "y:1.0.0"), Stepper(sp, brk));
  }

  /** When the first of two finds is on a line that becomes two, the second does not keep its line number. */
  lemma SecondShifts(text: string, a: Found<Hit>, b: Found<Hit>, decide: Hit -> Option<string>, sp: char -> bool,
                     brk: char -> bool)
    requires Ordinary(sp, brk) && Suits(decide, sp, brk)
    requires Entries(text, sp, brk) == [a, b] && Widens(text, a, decide, sp, brk)
    ensures var es' := Entries(Pass(text, decide, sp, brk), sp, brk); |es'| == 2 && es'[1].lineNo != b.lineNo
  {
    assert Entries(text, sp, brk)[0] == a;
    LineNumberKept(text, decide, 1, sp, brk);
    RescanFindsGoals(text, decide, sp, brk);
  }

  lemma FirstWidens(decide: Hit -> Option<string>, sp: char -> bool, brk: char -> bool)
    requires Ordinary(sp, brk) && !brk(' ') && brk('\U{b}') && decide(Hit("a", "x:1.0.0")).Some?
    ensures Widens(Concat(LinesOf(QuotedLine(), BareLine())), Found(3, Hit("a", "x:1.0.0")), decide, sp, brk)
  {
    ExampleLines(sp, brk);
    QuotedReads(sp);
    MatchesImage(QUOTED, sp);
  }

  /** Whatever pass moves the first image, the second is found on another line afterwards. */
  lemma OddBreakShiftsLines(decide: Hit -> Option<string>, sp: char -> bool, brk: char -> bool)
    requires Ordinary(sp, brk) && !brk(' ') && brk('\U{b}')
    requires Suits(decide, sp, brk) && decide(Hit("a", "x:1.0.0")).Some?
    ensures var text := Concat(LinesOf(QuotedLine(), BareLine()));
      var es, es' := Entries(text, sp, brk), Entries(Pass(text, decide, sp, brk), sp, brk);
      |es| == |es'| == 2 && es[1].lineNo == 4 && es'[1].lineNo != 4
  {
    ExampleEntries(sp, brk);
    FirstWidens(decide, sp, brk);
    SecondShifts(Concat(LinesOf(QuotedLine(), BareLine())), Found(3, Hit("a", "x:1.0.0")),
                 Found(4, Hit("a", "y:1.0.0")), decide, sp, brk);
  }
}
