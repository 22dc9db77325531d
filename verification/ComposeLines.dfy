/** The line patterns of a compose file and the parts of an image reference. */
module ComposeLines {
  import opened Text

  /** Python's white space: what `\s` matches and `strip` removes. */
  const WHITE_SPACE: string :=
    "\t\n\U{b}\U{c}\r\U{1c}\U{1d}\U{1e}\U{1f} \U{85}\U{a0}\U{1680}\U{2000}\U{2001}\U{2002}\U{2003}\U{2004}" +
    "\U{2005}\U{2006}\U{2007}\U{2008}\U{2009}\U{200a}\U{2028}\U{2029}\U{202f}\U{205f}\U{3000}"

  predicate IsSpace(c: char) { c in WHITE_SPACE }

  /** Where `splitlines` cuts. Reading a text file turns every carriage return into a line feed,
      so a carriage return never reaches it. */
  const LINE_BREAKS: string := "\n\U{b}\U{c}\U{1c}\U{1d}\U{1e}\U{85}\U{2028}\U{2029}"

  predicate IsBreak(c: char) { c in LINE_BREAKS }

  predicate IsQuote(c: char) { c == '"' || c == '\'' }
  predicate IsAt(c: char) { c == '@' }
  predicate IsNameChar(c: char) { 'A' <= c <= 'Z' || 'a' <= c <= 'z' || IsDigit(c) || c in "_.-" }

  /** What the patterns need of white space and line breaks. The definitions below take both as
      parameters; Python's own meet this. */
  ghost predicate Ordinary(sp: char -> bool, brk: char -> bool) {
    Plain(sp) && brk('\n') && forall c :: brk(c) ==> sp(c)
  }

  ghost predicate Plain(sp: char -> bool) {
    sp(' ') && forall c :: '!' <= c <= '~' ==> !sp(c)
  }

  lemma PythonIsOrdinary()
    ensures Ordinary(IsSpace, IsBreak)
  {
  }

  predicate Blank(s: string, sp: char -> bool) { Span(s, sp) == |s| }

  // ---------- services: and service headings ----------

  predicate IsServicesLine(line: string, sp: char -> bool) {
    var i := Span(line, sp);
    "services:" <= line[i..] && Blank(line[i + 9..], sp)
  }

  function ServiceHeading(line: string, sp: char -> bool): Option<string> {
    if "  " <= line then
      var n := Span(line[2..], IsNameChar);
      if n > 0 && 2 + n < |line| && line[2 + n] == ':' && Blank(line[3 + n..], sp) then Some(line[2..2 + n])
      else None
    else None
  }

  // ---------- image: lines ----------

  datatype Parts = Parts(pre: string, body: string, post: string)

  /** The match that the pattern's greedy choices reach first: blanks, `image:`, and then a value. */
  function MatchImage(line: string, sp: char -> bool): Option<Parts> {
    var i := Span(line, sp);
    if !("image:" <= line[i..]) then None
    else
      var m := MatchValue(line[i + 6..], sp);
      if m.None? then None
      else Some(Parts(line[..i + 6] + m.value.pre, m.value.body, m.value.post))
  }

  /** After `image:` come blanks, a quote if any, as many other characters as possible,
      a quote if any, and blanks. */
  function MatchValue(s: string, sp: char -> bool): Option<Parts> {
    var w := Span(s, sp);
    var rest := s[w..];
    if rest == "" then
      // only blanks: the last of them has to serve as the body
      if w == 0 then None else Some(Parts(s[..w - 1], s[w - 1..], ""))
    else if IsQuote(rest[0]) then
      var n := Until(rest[1..], IsQuote);
      if n > 0 then MatchTail(s[..w + 1], rest[1..], n, sp)
      else if |rest| == 1 && w > 0 then Some(Parts(s[..w - 1], s[w - 1..w], rest))
      else None
    else
      MatchTail(s[..w], rest, Until(rest, IsQuote), sp)
  }

  function MatchTail(pre: string, s: string, n: nat, sp: char -> bool): Option<Parts>
    requires n <= |s|
  {
    if n == |s| || Blank(s[n + 1..], sp) then Some(Parts(pre, s[..n], s[n..])) else None
  }

  /** How a value can be read by the pattern; `open` and `close` are the optional quotes. */
  datatype Reading = Reading(gap: string, open: string, body: string, close: string, tail: string) {
    function Pre(): string { gap + open }
    function Post(): string { close + tail }
    function Rest(): string { open + (body + (close + tail)) }
    function Text(): string { gap + Rest() }
    function Found(): Parts { Parts(Pre(), body, Post()) }

    ghost predicate Valid(sp: char -> bool) {
      && !sp('"') && !sp('\'')
      && All(gap, sp) && All(tail, sp)
      && |open| <= 1 && All(open, IsQuote) && |close| <= 1 && All(close, IsQuote)
      && body != "" && Never(body, IsQuote)
    }

    /** The pattern tries a longer gap first, then a quote, then a longer body. */
    ghost predicate Before(other: Reading) {
      || |gap| > |other.gap|
      || (|gap| == |other.gap| && |open| > |other.open|)
      || (|gap| == |other.gap| && |open| == |other.open| && |body| >= |other.body|)
    }

    /** The gap takes all the blanks and then the quote, if there is one... */
    ghost predicate Full(w: nat, sp: char -> bool) {
      && |gap| == w && (close == "" ==> tail == "")
      && (open == "" ==> Rest() != "" && !IsQuote(Rest()[0]) && !sp(Rest()[0]))
    }

    /** ...and gives one blank back only when nothing else could be the body. */
    ghost predicate Starved(w: nat, sp: char -> bool) {
      |gap| + 1 == w && open == "" && |body| == 1 && sp(body[0]) && tail == ""
    }
  }

  lemma GapLength(gap: string, rest: string, sp: char -> bool)
    requires All(gap, sp) && rest != "" && !sp(rest[0])
    ensures Span(gap + rest, sp) == |gap|
    ensures (gap + rest)[|gap|..] == rest && (gap + rest)[..|gap|] == gap
  {
    var s := gap + rest;
    assert forall j :: 0 <= j < |gap| ==> s[j] == gap[j];
    SpanUnique(s, sp, |gap|);
  }

  lemma BodyLength(body: string, post: string)
    requires Never(body, IsQuote) && (post == "" || IsQuote(post[0]))
    ensures Until(body + post, IsQuote) == |body|
    ensures (body + post)[..|body|] == body && (body + post)[|body|..] == post
  {
    var s := body + post;
    assert forall j :: 0 <= j < |body| ==> s[j] == body[j];
    UntilUnique(s, IsQuote, |body|);
  }

  lemma TailBuilt(pre: string, r: Reading, sp: char -> bool)
    requires r.Valid(sp) && (r.close == "" ==> r.tail == "")
    ensures var s := r.body + r.Post(); MatchTail(pre, s, Until(s, IsQuote), sp) == Some(Parts(pre, r.body, r.Post()))
    ensures var s := r.body + r.Post(); Until(s, IsQuote) > 0
  {
    BodyLength(r.body, r.Post());
    var s, n := r.body + r.Post(), |r.body|;
    if r.close != "" { assert s[n + 1..] == r.tail; }
  }

  /** What the matcher does once the gap is known. */
  lemma MatchBare(s: string, w: nat, rest: string, sp: char -> bool)
    requires Span(s, sp) == w && s[w..] == rest && rest != "" && !IsQuote(rest[0])
    ensures MatchValue(s, sp) == MatchTail(s[..w], rest, Until(rest, IsQuote), sp)
  {
  }

  lemma MatchQuoted(s: string, w: nat, rest: string, tail: string, sp: char -> bool)
    requires Span(s, sp) == w && s[w..] == rest && rest != "" && IsQuote(rest[0]) && rest[1..] == tail
      && Until(tail, IsQuote) > 0
    ensures MatchValue(s, sp) == MatchTail(s[..w + 1], tail, Until(tail, IsQuote), sp)
  {
  }

  lemma BuiltBare(gap: string, rest: string, sp: char -> bool)
    requires All(gap, sp) && rest != "" && !sp(rest[0]) && !IsQuote(rest[0])
    ensures MatchValue(gap + rest, sp) == MatchTail(gap, rest, Until(rest, IsQuote), sp)
  {
    GapLength(gap, rest, sp);
    MatchBare(gap + rest, |gap|, rest, sp);
  }

  lemma BuiltQuoted(gap: string, quote: char, tail: string, sp: char -> bool)
    requires All(gap, sp) && !sp(quote) && IsQuote(quote) && Until(tail, IsQuote) > 0
    ensures MatchValue(gap + ([quote] + tail), sp) == MatchTail(gap + [quote], tail, Until(tail, IsQuote), sp)
  {
    var s, rest := gap + ([quote] + tail), [quote] + tail;
    GapLength(gap, rest, sp);
    assert rest[1..] == tail && s[..|gap| + 1] == gap + [quote];
    MatchQuoted(s, |gap|, rest, tail, sp);
  }

  /** A full reading is the one found. */
  lemma MatchBuilt(r: Reading, sp: char -> bool)
    requires r.Valid(sp) && r.Full(|r.gap|, sp)
    ensures MatchValue(r.Text(), sp) == Some(r.Found())
  {
    TailBuilt(r.Pre(), r, sp);
    if r.open == "" {
      assert r.Rest() == r.body + r.Post() && r.Pre() == r.gap;
      BuiltBare(r.gap, r.Rest(), sp);
    } else {
      assert r.open == [r.open[0]];
      BuiltQuoted(r.gap, r.open[0], r.body + r.Post(), sp);
    }
  }

  ghost predicate Reads(r: Reading, s: string, sp: char -> bool) {
    r.Valid(sp) && r.Text() == s && MatchValue(s, sp) == Some(r.Found())
  }

  /** Whatever is found is a reading of the text. */
  lemma MatchSound(s: string, sp: char -> bool) returns (r: Reading)
    requires MatchValue(s, sp).Some? && !sp('"') && !sp('\'')
    ensures Reads(r, s, sp)
    ensures r.Full(Span(s, sp), sp) || r.Starved(Span(s, sp), sp)
  {
    var rest := s[Span(s, sp)..];
    if rest != "" && !IsQuote(rest[0]) {
      r := BareSound(s, sp);
    } else if rest != "" && Until(rest[1..], IsQuote) > 0 {
      r := QuotedSound(s, sp);
    } else {
      r := StarvedSound(s, sp);
    }
  }

  /** What the match says about the part behind the gap and the quote. */
  ghost predicate TailShape(s: string, sp: char -> bool) {
    var n := Until(s, IsQuote);
    n > 0 && (n == |s| || Blank(s[n + 1..], sp))
  }

  lemma BareShape(s: string, sp: char -> bool)
    requires MatchValue(s, sp).Some?
    requires var rest := s[Span(s, sp)..]; rest != "" && !IsQuote(rest[0])
    ensures TailShape(s[Span(s, sp)..], sp) && !sp(s[Span(s, sp)])
  {
  }

  lemma BareSound(s: string, sp: char -> bool) returns (r: Reading)
    requires MatchValue(s, sp).Some? && !sp('"') && !sp('\'')
    requires var rest := s[Span(s, sp)..]; rest != "" && !IsQuote(rest[0])
    ensures Reads(r, s, sp) && r.Full(Span(s, sp), sp)
  {
    var w := Span(s, sp);
    BareShape(s, sp);
    r := TailSound(s[..w], "", s[w..], sp);
    assert s == s[..w] + ("" + s[w..]);
    MatchBuilt(r, sp);
  }

  lemma QuotedShape(s: string, sp: char -> bool)
    requires MatchValue(s, sp).Some?
    requires var rest := s[Span(s, sp)..]; rest != "" && IsQuote(rest[0]) && Until(rest[1..], IsQuote) > 0
    ensures TailShape(s[Span(s, sp)..][1..], sp)
  {
  }

  lemma QuotedSound(s: string, sp: char -> bool) returns (r: Reading)
    requires MatchValue(s, sp).Some? && !sp('"') && !sp('\'')
    requires var rest := s[Span(s, sp)..]; rest != "" && IsQuote(rest[0]) && Until(rest[1..], IsQuote) > 0
    ensures Reads(r, s, sp) && r.Full(Span(s, sp), sp)
  {
    var w := Span(s, sp);
    QuotedShape(s, sp);
    assert s[w..][1..] == s[w + 1..];
    r := QuotedBuilt(s, w, sp);
  }

  lemma QuotedBuilt(s: string, w: nat, sp: char -> bool) returns (r: Reading)
    requires w < |s| && All(s[..w], sp) && IsQuote(s[w]) && TailShape(s[w + 1..], sp) && !sp('"') && !sp('\'')
    ensures Reads(r, s, sp) && r.Full(w, sp)
  {
    r := TailSound(s[..w], [s[w]], s[w + 1..], sp);
    assert s == s[..w] + ([s[w]] + s[w + 1..]);
    MatchBuilt(r, sp);
  }

  lemma TailSound(gap: string, open: string, s: string, sp: char -> bool) returns (r: Reading)
    requires TailShape(s, sp)
    requires All(gap, sp) && |open| <= 1 && All(open, IsQuote) && !sp('"') && !sp('\'')
    requires open == "" ==> !sp(s[0])
    ensures r.Valid(sp) && r.Text() == gap + (open + s) && r.Full(|gap|, sp)
  {
    var n := Until(s, IsQuote);
    var c := if n == |s| then n else n + 1;
    r := Reading(gap, open, s[..n], s[n..c], s[c..]);
    assert s == s[..n] + (s[n..c] + s[c..]);
    assert open == "" ==> open + s == s;
  }

  function StarvedReading(s: string, w: nat): Reading
    requires 1 <= w <= |s|
  {
    Reading(s[..w - 1], "", s[w - 1..w], s[w..], "")
  }

  lemma StarvedText(s: string, w: nat)
    requires 1 <= w <= |s|
    ensures var r := StarvedReading(s, w); r.Text() == s && r.Found() == Parts(s[..w - 1], s[w - 1..w], s[w..])
  {
    assert s[..w - 1] + "" == s[..w - 1] && s[w..] + "" == s[w..];
    assert s == s[..w - 1] + (s[w - 1..w] + s[w..]);
  }

  /** Only blanks: the last of them is the body. */
  lemma StarvedBlank(s: string, sp: char -> bool)
    requires Span(s, sp) == |s|
    ensures MatchValue(s, sp) == if s == "" then None else Some(Parts(s[..|s| - 1], s[|s| - 1..], ""))
  {
    assert s[|s|..] == "";
  }

  /** Blanks and one quote: the last blank is the body. */
  lemma StarvedQuote(s: string, w: nat, rest: string, tail: string, sp: char -> bool)
    requires Span(s, sp) == w && s[w..] == rest && rest != "" && IsQuote(rest[0]) && rest[1..] == tail
      && Until(tail, IsQuote) == 0
    ensures MatchValue(s, sp) == if tail == "" && w > 0 then Some(Parts(s[..w - 1], s[w - 1..w], rest)) else None
  {
  }

  lemma StarvedValid(s: string, w: nat, sp: char -> bool)
    requires 1 <= w <= |s| <= w + 1 && sp(s[w - 1]) && All(s[..w], sp) && (w < |s| ==> IsQuote(s[w])) && !sp('"')
      && !sp('\'')
    ensures StarvedReading(s, w).Valid(sp) && StarvedReading(s, w).Starved(w, sp)
  {
    assert s[w - 1..w] == [s[w - 1]];
    assert w < |s| ==> s[w..] == [s[w]];
  }

  lemma StarvedSound(s: string, sp: char -> bool) returns (r: Reading)
    requires MatchValue(s, sp).Some? && !sp('"') && !sp('\'')
    requires var rest := s[Span(s, sp)..]; rest == "" || (IsQuote(rest[0]) && Until(rest[1..], IsQuote) == 0)
    ensures Reads(r, s, sp) && r.Starved(Span(s, sp), sp)
  {
    var w := Span(s, sp);
    if w == |s| {
      StarvedBlank(s, sp);
      assert s[w - 1..] == s[w - 1..w] && s[w..] == "";
    } else {
      StarvedQuote(s, w, s[w..], s[w..][1..], sp);
    }
    StarvedText(s, w);
    StarvedValid(s, w, sp);
    r := StarvedReading(s, w);
  }

  /** Every text with a reading is matched, and the match is the reading the pattern tries first. */
  lemma MatchComplete(r: Reading, sp: char -> bool) returns (found: Reading)
    requires r.Valid(sp)
    ensures MatchValue(r.Text(), sp) == Some(found.Found())
    ensures found.Valid(sp) && found.Text() == r.Text() && found.Before(r)
  {
    GapPrefix(r, sp);
    MatchCompleteAt(r, sp);
    found := MatchSound(r.Text(), sp);
    FoundFirst(r, found, sp);
  }

  lemma GapPrefix(r: Reading, sp: char -> bool)
    requires r.Valid(sp)
    ensures |r.gap| <= Span(r.Text(), sp)
  {
    assert forall j :: 0 <= j < |r.gap| ==> r.Text()[j] == r.gap[j];
  }

  ghost predicate Closes(t: string, sp: char -> bool) {
    var n := Until(t, IsQuote);
    n == |t| || Blank(t[n + 1..], sp)
  }

  /** What MatchValue asks of a text, branch by branch. */
  lemma MatchSome(s: string, sp: char -> bool)
    requires var w := Span(s, sp);
      if w == |s| then w > 0
      else if !IsQuote(s[w]) then Closes(s[w..], sp)
      else if Until(s[w + 1..], IsQuote) > 0 then Closes(s[w + 1..], sp)
      else |s| == w + 1 && w > 0
    ensures MatchValue(s, sp).Some?
  {
    var w := Span(s, sp);
    if w < |s| {
      var rest := s[w..];
      assert rest != "" && rest[0] == s[w];
      if IsQuote(rest[0]) {
        var t := rest[1..];
        assert t == s[w + 1..] && |t| == |s| - w - 1;
        if Until(t, IsQuote) > 0 {
          assert MatchTail(s[..w + 1], t, Until(t, IsQuote), sp).Some?;
        }
      }
    }
  }

  lemma MatchCompleteAt(r: Reading, sp: char -> bool)
    requires r.Valid(sp) && |r.gap| <= Span(r.Text(), sp)
    ensures MatchValue(r.Text(), sp).Some?
  {
    var s := r.Text();
    var w := Span(s, sp);
    if w < |s| && !IsQuote(s[w]) {
      TailFits(r, w, sp);
    } else if w < |s| {
      if Until(s[w + 1..], IsQuote) > 0 {
        TailFits(r, w + 1, sp);
      } else {
        NothingAfterQuote(r, w, sp);
      }
    }
    MatchSome(s, sp);
  }

  /** Behind the opening quote, only the closing quote can be one. */
  lemma AtClose(r: Reading, i: nat, sp: char -> bool)
    requires r.Valid(sp) && |r.gap| + |r.open| <= i < |r.Text()| && IsQuote(r.Text()[i])
    ensures i >= |r.gap| + |r.open| + |r.body| && r.Text()[i + 1..] == r.tail
  {
  }

  lemma TailFits(r: Reading, k: nat, sp: char -> bool)
    requires r.Valid(sp) && |r.gap| <= k <= |r.Text()|
    requires k == |r.gap| ==> k == |r.Text()| || !IsQuote(r.Text()[k])
    ensures Closes(r.Text()[k..], sp)
  {
    var s := r.Text();
    var t := s[k..];
    var n := Until(t, IsQuote);
    if n < |t| {
      assert s[k + n] == t[n];
      assert r.open != "" ==> s[|r.gap|] == r.open[0];
      AtClose(r, k + n, sp);
      assert t[n + 1..] == s[k + n + 1..];
    }
  }

  lemma NothingAfterQuote(r: Reading, w: nat, sp: char -> bool)
    requires r.Valid(sp) && w == Span(r.Text(), sp) < |r.Text()| && |r.gap| <= w
    requires IsQuote(r.Text()[w]) && Until(r.Text()[w + 1..], IsQuote) == 0
    ensures |r.Text()| == w + 1 && w > 0
  {
    var s := r.Text();
    var b := |r.gap| + |r.open|;
    assert s[b] == r.body[0];
    assert w >= b;
    AtClose(r, w, sp);
  }

  /** Where the characters of a reading's text come from. */
  lemma Characters(r: Reading)
    requires |r.open| <= 1
    ensures var s, g, b := r.Text(), |r.gap|, |r.gap| + |r.open|;
      && |s| == b + |r.body| + |r.close| + |r.tail|
      && (|r.open| == 1 ==> s[g] == r.open[0])
      && (forall j :: b <= j < b + |r.body| ==> s[j] == r.body[j - b])
      && (|r.close| > 0 ==> s[b + |r.body|] == r.close[0])
      && (r.Rest() != "" ==> s[g] == r.Rest()[0])
  {
  }

  lemma FoundFirst(r: Reading, found: Reading, sp: char -> bool)
    requires r.Valid(sp) && found.Valid(sp) && r.Text() == found.Text() && |r.gap| <= Span(r.Text(), sp)
    requires found.Full(Span(r.Text(), sp), sp) || found.Starved(Span(r.Text(), sp), sp)
    ensures found.Before(r)
  {
    Characters(r);
    Characters(found);
  }

  /** A whole image line is matched as its value is. */
  lemma ImageOfValue(indent: string, value: string, sp: char -> bool)
    requires All(indent, sp) && Plain(sp)
    ensures var line, m := indent + "image:" + value, MatchValue(value, sp);
      MatchImage(line, sp) ==
      if m.None? then None else Some(Parts(indent + "image:" + m.value.pre, m.value.body, m.value.post))
  {
    var line := indent + "image:" + value;
    assert line == indent + ("image:" + value);
    GapLength(indent, "image:" + value, sp);
    var i := |indent|;
    assert line[i..] == "image:" + value && line[..i + 6] == indent + "image:";
    assert line[i + 6..] == value;
  }

  /** Where a matched line's value starts. */
  lemma ImageValue(line: string, sp: char -> bool) returns (indent: string, value: string)
    requires MatchImage(line, sp).Some?
    ensures All(indent, sp) && line == indent + "image:" + value && MatchValue(value, sp).Some?
  {
    var i := Span(line, sp);
    indent, value := line[..i], line[i + 6..];
    assert line[i..i + 6] == "image:";
  }

  lemma ImageSound(line: string, sp: char -> bool) returns (indent: string, r: Reading)
    requires MatchImage(line, sp).Some? && Plain(sp)
    ensures All(indent, sp) && line == indent + "image:" + r.Text() && r.Valid(sp)
    ensures r.Full(|r.gap|, sp) || r.Starved(|r.gap| + 1, sp)
    ensures MatchImage(line, sp) == Some(Parts(indent + "image:" + r.Pre(), r.body, r.Post()))
  {
    var value;
    indent, value := ImageValue(line, sp);
    r := MatchSound(value, sp);
    ImageOfValue(indent, value, sp);
  }

  /** An image line with something solid behind it is neither of the other two patterns. */
  lemma OnlyImage(indent: string, value: string, k: nat, sp: char -> bool)
    requires All(indent, sp) && Plain(sp) && k < |value| && !sp(value[k])
    ensures var line := indent + "image:" + value; !IsServicesLine(line, sp) && ServiceHeading(line, sp).None?
  {
    var line := indent + "image:" + value;
    assert line == indent + ("image:" + value);
    GapLength(indent, "image:" + value, sp);
    var i := |indent|;
    assert line[i] == 'i';
    if "  " <= line {
      NoHeading(indent, value, k, sp);
    }
  }

  lemma NoHeading(indent: string, value: string, k: nat, sp: char -> bool)
    requires All(indent, sp) && Plain(sp) && k < |value| && !sp(value[k])
    requires "  " <= indent + "image:" + value
    ensures ServiceHeading(indent + "image:" + value, sp).None?
  {
    var line := indent + "image:" + value;
    assert line[0] == ' ' && line[1] == ' ';
    assert line[|indent|] == 'i';
    if |indent| == 2 {
      var t := line[2..];
      assert t == "image:" + value;
      SpanUnique(t, IsNameChar, 5);
      assert line[8..] == value;
    } else {
      assert line[2] == indent[2];
    }
  }

  // ---------- Image references ----------

  function FindLast(s: string, c: char): (r: Option<nat>)
    ensures r.None? <==> c !in s
    ensures r.Some? ==> r.value < |s| && s[r.value] == c && c !in s[r.value + 1..]
  {
    if s == "" then None
    else if s[|s| - 1] == c then Some(|s| - 1)
    else
      var r := FindLast(s[..|s| - 1], c);
      if r.Some? then assert s[r.value + 1..] == s[..|s| - 1][r.value + 1..] + [s[|s| - 1]]; r
      else assert s == s[..|s| - 1] + [s[|s| - 1]]; r
  }

  /** Drop surrounding blanks and any digest, then cut off the tag. */
  function SplitRef(imageRef: string, sp: char -> bool): (string, string) {
    var whole := Strip(imageRef, sp);
    SplitCore(whole[..Until(whole, IsAt)])
  }

  /** Cut at the last colon unless a slash follows it. */
  function SplitCore(ref: string): (string, string) {
    var colon := FindLast(ref, ':');
    if colon.Some? && '/' in ref && '/' !in ref[colon.value + 1..] then (ref[..colon.value], ref[colon.value + 1..])
    else if colon.Some? && '/' !in ref then (ref[..colon.value], ref[colon.value + 1..])
    else (ref, "latest")
  }

  /** `core` is the part of the reference in front of any digest. */
  ghost predicate IsCore(core: string, imageRef: string, sp: char -> bool) {
    var whole := Strip(imageRef, sp);
    core <= whole && '@' !in core && (core == whole || whole[|core|] == '@')
  }

  ghost predicate Tagged(core: string, name: string, tag: string) {
    core == name + ":" + tag && ':' !in tag && '/' !in tag
  }

  lemma SplitRefIsCore(imageRef: string, core: string, sp: char -> bool)
    requires IsCore(core, imageRef, sp)
    ensures SplitRef(imageRef, sp) == SplitCore(core)
  {
    var whole := Strip(imageRef, sp);
    UntilUnique(whole, IsAt, |core|);
    assert whole[..|core|] == core;
  }

  lemma TaggedSplits(core: string, n: string, t: string)
    requires Tagged(core, n, t)
    ensures SplitCore(core) == (n, t)
  {
    LastColonUnique(core, n, t);
  }

  lemma CoreSplits(core: string)
    ensures SplitCore(core) != (core, "latest") ==> Tagged(core, SplitCore(core).0, SplitCore(core).1)
  {
    var colon := FindLast(core, ':');
    if colon.Some? {
      var name, tag := core[..colon.value], core[colon.value + 1..];
      assert core == name + ":" + tag;
    }
  }

  /** The split is the only one whose tag has neither colon nor slash; without one the tag is latest. */
  lemma SplitRefMeaning(imageRef: string, core: string, sp: char -> bool)
    requires IsCore(core, imageRef, sp)
    ensures var (name, tag) := SplitRef(imageRef, sp);
      || Tagged(core, name, tag)
      || (name == core && tag == "latest" && forall n, t :: !Tagged(core, n, t))
    ensures forall n, t :: Tagged(core, n, t) ==> SplitRef(imageRef, sp) == (n, t)
  {
    SplitRefIsCore(imageRef, core, sp);
    CoreSplits(core);
    forall n, t | Tagged(core, n, t) ensures SplitCore(core) == (n, t) { TaggedSplits(core, n, t); }
  }

  lemma LastColonUnique(core: string, n: string, t: string)
    requires core == n + ":" + t && ':' !in t
    ensures FindLast(core, ':') == Some(|n|)
    ensures n == core[..|n|] && t == core[|n| + 1..]
  {
    assert core[|n|] == ':';
    var k := FindLast(core, ':').value;
    assert core[|n| + 1..] == t;
    assert forall j :: k < j < |core| ==> core[j] == core[k + 1..][j - k - 1];
  }
}
