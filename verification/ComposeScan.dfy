/** The compose-file scanner as a line machine, and the rewriting of image tags. */
module ComposeScan {
  import opened Text
  import opened Versions
  import opened ComposeLines
  import opened LineScan

  // ---------- Scanning ----------

  datatype ScanState = ScanState(inServices: bool, service: Option<string>)

  const START := ScanState(false, None)

  /** An image reference under the service it belongs to. */
  datatype Hit = Hit(service: string, ref: string)

  /** A line without its line break. */
  function Content(line: string, brk: char -> bool): string {
    if line != "" && brk(line[|line| - 1]) then line[..|line| - 1] else line
  }

  /** What one line does to the scan: the new state and the image reference found, if any. */
  function Step(st: ScanState, content: string, sp: char -> bool): (ScanState, Option<Hit>) {
    if IsServicesLine(content, sp) then (ScanState(true, None), None)
    else if !st.inServices then (st, None)
    else
      var heading := ServiceHeading(content, sp);
      if heading.Some? then (st.(service := heading), None)
      else
        var m := MatchImage(content, sp);
        if m.None? || st.service.None? then (st, None)
        else (st, Some(Hit(st.service.value, Strip(m.value.body, sp))))
  }

  function Stepper(sp: char -> bool, brk: char -> bool): (ScanState, string) -> (ScanState, Option<Hit>) {
    (st, line) => Step(st, Content(line, brk), sp)
  }

  function Entries(text: string, sp: char -> bool, brk: char -> bool): seq<Found<Hit>> {
    Scan(SplitKeep(text, brk), START, 1, Stepper(sp, brk))
  }

  /** Reading line `i` extends what has been found so far and leaves the rest to be scanned. */
  lemma ScanAdvance(es: seq<Found<Hit>>, whole: seq<Found<Hit>>, lines: seq<string>, i: nat, st: ScanState,
                    next: ScanState, hit: Option<Hit>, step: (ScanState, string) -> (ScanState, Option<Hit>))
    requires i < |lines| && step(st, lines[i]) == (next, hit)
    requires es + Scan(lines[i..], st, i + 1, step) == whole
    ensures (if hit.Some? then es + [Found(i + 1, hit.value)] else es)
      + Scan(lines[i + 1..], next, i + 2, step) == whole
  {
    assert lines[i..][1..] == lines[i + 1..];
    assert lines[i..][0] == lines[i];
  }

  /** One turn of the scanning loop, with the state in variables. */
  method ScanLine(inServices: bool, service: Option<string>, line: string, sp: char -> bool)
    returns (inServices': bool, service': Option<string>, hit: Option<Hit>)
    ensures (ScanState(inServices', service'), hit) == Step(ScanState(inServices, service), line, sp)
  {
    inServices', service', hit := inServices, service, None;
    if IsServicesLine(line, sp) {
      inServices' := true;
      service' := None;
      return;
    }
    if !inServices {
      return;
    }
    var heading := ServiceHeading(line, sp);
    if heading.Some? {
      service' := heading;
      return;
    }
    var m := MatchImage(line, sp);
    if m.Some? && service.Some? {
      hit := Some(Hit(service.value, Strip(m.value.body, sp)));
    }
  }

  method LoadComposeImages(text: string, sp: char -> bool, brk: char -> bool) returns (entries: seq<Found<Hit>>)
    ensures entries == Entries(text, sp, brk)
  {
    var lines := SplitKeep(text, brk);
    entries := [];
    var inServices := false;
    var service: Option<string> := None;
    for i := 0 to |lines|
      invariant entries + Scan(lines[i..], ScanState(inServices, service), i + 1, Stepper(sp, brk)) ==
        Entries(text, sp, brk)
    {
      ghost var st, before := ScanState(inServices, service), entries;
      var hit;
      inServices, service, hit := ScanLine(inServices, service, Content(lines[i], brk), sp);
      ScanAdvance(before, Entries(text, sp, brk), lines, i, st, ScanState(inServices, service), hit, Stepper(sp, brk));
      if hit.Some? {
        entries := entries + [Found(i + 1, hit.value)];
      }
    }
  }

  // ---------- Rewriting one line ----------

  function NewRef(hit: Hit, target: string, sp: char -> bool): string {
    SplitRef(hit.ref, sp).0 + ":" + target
  }

  /** The new text of a matched line, or None when the line no longer shows the reference. */
  function RewriteLine(line: string, hit: Hit, target: string, sp: char -> bool): Option<string> {
    var m := MatchImage(TrimRight(line, IsNewline), sp);
    if m.None? || Strip(m.value.body, sp) != hit.ref then None
    else Some(m.value.pre + NewRef(hit, target, sp) + m.value.post + "\n")
  }

  /** A line is rewritten exactly for the reference it shows. */
  lemma RewritesItsOwn(line: string, hit: Hit, target: string, sp: char -> bool)
    ensures RewriteLine(line, hit, target, sp).Some? <==>
      var m := MatchImage(TrimRight(line, IsNewline), sp); m.Some? && Strip(m.value.body, sp) == hit.ref
  {
  }

  function Changer(sp: char -> bool): (string, Hit, string) -> Option<string> {
    (line, hit, target) => RewriteLine(line, hit, target, sp)
  }

  /** What a find becomes once its line is rewritten. */
  function Goal(decide: Hit -> Option<string>, sp: char -> bool): Hit -> Hit {
    hit => if decide(hit).Some? then Hit(hit.service, NewRef(hit, decide(hit).value, sp)) else hit
  }

  /** Only pinned tags are moved, and only to stable tags. */
  ghost predicate Sane(decide: Hit -> Option<string>, sp: char -> bool) {
    forall hit :: decide(hit).Some? ==> Stable(SplitRef(hit.ref, sp).1) && Stable(decide(hit).value)
  }

  lemma LatestIsNotStable()
    ensures !Stable("latest")
  {
    assert Until("latest", NotDigit) == 0;
  }

  /** A reference with an explicit tag is its name, a colon, its tag, and perhaps a digest. */
  lemma TaggedRef(ref: string, sp: char -> bool) returns (digest: string)
    requires Tight(ref, sp) && SplitRef(ref, sp).1 != "latest"
    ensures ref == SplitRef(ref, sp).0 + ":" + SplitRef(ref, sp).1 + digest
    ensures '@' !in SplitRef(ref, sp).0
  {
    var n := Until(ref, IsAt);
    SplitTight(ref, sp);
    digest := ref[n..];
    TaggedCore(ref[..n]);
    assert ref == ref[..n] + digest;
  }

  lemma SplitTight(ref: string, sp: char -> bool)
    requires Tight(ref, sp)
    ensures SplitRef(ref, sp) == SplitCore(ref[..Until(ref, IsAt)]) && '@' !in ref[..Until(ref, IsAt)]
  {
    assert [] + ref + [] == ref;
    StripUnique([], ref, [], sp);
  }

  lemma TaggedCore(core: string)
    requires SplitCore(core).1 != "latest" && '@' !in core
    ensures core == SplitCore(core).0 + ":" + SplitCore(core).1 && '@' !in SplitCore(core).0
  {
    var k := FindLast(core, ':').value;
    assert core == core[..k] + ":" + core[k + 1..];
  }

  /** No separators inside and no blank at the end. */
  ghost predicate TagLike(tag: string, sp: char -> bool) {
    tag != "" && !sp(tag[|tag| - 1]) && ':' !in tag && '/' !in tag && '@' !in tag
  }

  lemma StableIsTagLike(tag: string, sp: char -> bool)
    requires Plain(sp) && Stable(tag)
    ensures TagLike(tag, sp) && tag != "latest"
    ensures forall i :: 0 <= i < |tag| ==> '!' <= tag[i] <= '~' && !IsQuote(tag[i])
  {
    StableShape(tag);
    LatestIsNotStable();
  }

  /** The new reference is solid at both ends and splits into the old name and the new tag. */
  lemma NewRefSplits(ref: string, target: string, sp: char -> bool)
    requires Plain(sp) && Tight(ref, sp) && SplitRef(ref, sp).1 != "latest" && TagLike(target, sp)
    ensures var r := SplitRef(ref, sp).0 + ":" + target;
      r != "" && Tight(r, sp) && SplitRef(r, sp) == (SplitRef(ref, sp).0, target)
  {
    var name := SplitRef(ref, sp).0;
    var r := name + ":" + target;
    NewRefTight(ref, target, sp);
    assert [] + r + [] == r;
    StripUnique([], r, [], sp);
    assert IsCore(r, r, sp);
    SplitRefMeaning(r, r, sp);
    assert Tagged(r, name, target);
  }

  lemma NewRefTight(ref: string, target: string, sp: char -> bool)
    requires Plain(sp) && Tight(ref, sp) && SplitRef(ref, sp).1 != "latest" && TagLike(target, sp)
    ensures var r := SplitRef(ref, sp).0 + ":" + target; r != "" && Tight(r, sp) && '@' !in r
  {
    var name := SplitRef(ref, sp).0;
    var digest := TaggedRef(ref, sp);
    var r := name + ":" + target;
    assert r[|r| - 1] == target[|target| - 1];
    assert name != "" ==> r[0] == ref[0];
  }
}
