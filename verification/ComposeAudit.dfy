/** The version audit: which finds move to which tag, and what repeated passes do to a compose file. */
module ComposeAudit {
  import opened Text
  import opened Order
  import opened Versions
  import opened Registry
  import opened ComposeLines
  import opened LineScan
  import opened ComposeScan
  import opened ComposeRewrite

  // ---------- The verdict on one reference ----------

  datatype TagMode = FloatingLatest | PinnedSemver | FloatingChannel

  function ClassifyTag(tag: string): TagMode {
    if Lower(tag) == "latest" then FloatingLatest
    else if Stable(tag) then PinnedSemver
    else FloatingChannel
  }

  /** `latest` floats however it is written, three or four numbers are pinned, and everything else is a channel. */
  lemma ClassifyMeaning(tag: string)
    ensures ClassifyTag(tag) == FloatingLatest <==> Lower(tag) == "latest"
    ensures ClassifyTag(tag) == PinnedSemver <==> StableVersion(tag).Some?
  {
    if Stable(tag) {
      StableShape(tag);
      assert Lower(tag)[|tag| - 1] == tag[|tag| - 1];
    }
  }

  /** The tag to move to: only a pinned tag moves, only to something newer, and over a major only when allowed. */
  function Compare(tag: string, latest: Option<Release>, allowMajor: bool): Option<string> {
    var current := ParseVersion(tag);
    if ClassifyTag(tag) != PinnedSemver then None
    else if current.None? || latest.None? || latest.value.version == [] || latest.value.tag == "" then None
    else if !allowMajor && latest.value.version[0] != current.value[0] then None
    else if !Less(current.value, latest.value.version) then None
    else Some(latest.value.tag)
  }

  function Name(hit: Hit, sp: char -> bool): string { SplitRef(hit.ref, sp).0 }
  function Tag(hit: Hit, sp: char -> bool): string { SplitRef(hit.ref, sp).1 }

  /** The audit against a registry: `fetch` gives the newest stable release of each source. */
  function Decide(fetch: Source -> Option<Release>, allowMajor: bool, sp: char -> bool): Hit -> Option<string> {
    hit => Compare(Tag(hit, sp), fetch(ResolveSource(Name(hit, sp))), allowMajor)
  }

  /** What the fetchers guarantee: a release is a stable tag with its own version. */
  ghost predicate Honest(fetch: Source -> Option<Release>) {
    forall s :: fetch(s).Some? ==> StableVersion(fetch(s).value.tag) == Some(fetch(s).value.version)
  }

  /** The audit loop with its cache: every source is fetched once, and the verdicts are those without a cache. */
  method Audit(es: seq<Found<Hit>>, fetch: Source -> Option<Release>, allowMajor: bool, sp: char -> bool)
    returns (audited: seq<Audited<Hit>>, fetched: seq<Source>)
    ensures audited == AuditAll(es, Decide(fetch, allowMajor, sp))
    ensures forall i, j :: 0 <= i < j < |fetched| ==> fetched[i] != fetched[j]
    ensures forall s :: s in fetched <==> exists k :: 0 <= k < |es| && ResolveSource(Name(es[k].hit, sp)) == s
  {
    audited, fetched := AuditCached(es, SourceOf(sp), fetch, Verdict(allowMajor, sp));
    SameDecisions(es, fetch, allowMajor, sp);
  }

  function SourceOf(sp: char -> bool): Hit -> Source { hit => ResolveSource(Name(hit, sp)) }

  function Verdict(allowMajor: bool, sp: char -> bool): (Hit, Option<Release>) -> Option<string> {
    (hit, latest) => Compare(Tag(hit, sp), latest, allowMajor)
  }

  lemma SameDecisions(es: seq<Found<Hit>>, fetch: Source -> Option<Release>, allowMajor: bool, sp: char -> bool)
    ensures AuditAll(es, Verdicts(SourceOf(sp), fetch, Verdict(allowMajor, sp))) ==
      AuditAll(es, Decide(fetch, allowMajor, sp))
  {
  }

  // ---------- One pass ----------

  /** The pinned version of a reference, if its tag is pinned. */
  function Pin(hit: Hit, sp: char -> bool): Option<Version> { StableVersion(Tag(hit, sp)) }

  lemma CompareMeaning(tag: string, latest: Option<Release>, allowMajor: bool)
    requires latest.Some? ==> StableVersion(latest.value.tag) == Some(latest.value.version)
    ensures Compare(tag, latest, allowMajor) ==
      if latest.Some? && StableVersion(tag).Some? && Less(StableVersion(tag).value, latest.value.version)
         && (allowMajor || latest.value.version[0] == StableVersion(tag).value[0])
      then Some(latest.value.tag) else None
  {
    if Stable(tag) {
      StableShape(tag);
      assert Lower(tag)[|tag| - 1] == tag[|tag| - 1];
      assert ClassifyTag(tag) == PinnedSemver;
    }
    if latest.Some? { StableShape(latest.value.tag); }
  }

  /** The audit in terms of pinned versions. */
  lemma DecideMeaning(hit: Hit, fetch: Source -> Option<Release>, allowMajor: bool, sp: char -> bool)
    requires Honest(fetch)
    ensures var latest, pin, d := fetch(ResolveSource(Name(hit, sp))), Pin(hit, sp), Decide(fetch, allowMajor, sp)(hit);
      d == if latest.Some? && pin.Some? && Less(pin.value, latest.value.version)
              && (allowMajor || latest.value.version[0] == pin.value[0])
           then Some(latest.value.tag) else None
  {
    CompareMeaning(Tag(hit, sp), fetch(ResolveSource(Name(hit, sp))), allowMajor);
  }

  lemma DecideSuits(fetch: Source -> Option<Release>, allowMajor: bool, sp: char -> bool, brk: char -> bool)
    requires Honest(fetch) && Ordinary(sp, brk)
    ensures Suits(Decide(fetch, allowMajor, sp), sp, brk)
  {
    var d := Decide(fetch, allowMajor, sp);
    forall hit | d(hit).Some? ensures Stable(SplitRef(hit.ref, sp).1) && Stable(d(hit).value) {
      DecideMeaning(hit, fetch, allowMajor, sp);
    }
    SaneSuits(d, sp, brk);
  }

  /** The same service and image; a pinned version never goes down, and anything else is untouched. */
  ghost predicate Advances(h: Hit, h': Hit, sp: char -> bool) {
    && h'.service == h.service && Name(h', sp) == Name(h, sp)
    && (Pin(h, sp).None? ==> h' == h)
    && (Pin(h, sp).Some? ==> Pin(h', sp).Some? && !Less(Pin(h', sp).value, Pin(h, sp).value))
  }

  ghost predicate SameMajor(h: Hit, h': Hit, sp: char -> bool) {
    Pin(h, sp).Some? && Pin(h', sp).Some? ==> Pin(h, sp).value[..1] == Pin(h', sp).value[..1]
  }

  /** A moved reference keeps its name and carries exactly the target as its tag. */
  lemma GoalSplits(hit: Hit, fetch: Source -> Option<Release>, allowMajor: bool, sp: char -> bool, brk: char -> bool)
    requires Honest(fetch) && Ordinary(sp, brk) && Tight(hit.ref, sp)
    ensures var d := Decide(fetch, allowMajor, sp); var h' := Goal(d, sp)(hit);
      && h'.service == hit.service && Name(h', sp) == Name(hit, sp) && Tight(h'.ref, sp)
      && (if d(hit).Some? then Tag(h', sp) == d(hit).value else h' == hit)
  {
    var d := Decide(fetch, allowMajor, sp);
    DecideSuits(fetch, allowMajor, sp, brk);
    if d(hit).Some? { NewRefSplits(hit.ref, d(hit).value, sp); }
  }

  /** The pins before and after: the newest release's where the reference moves, the same elsewhere. */
  lemma GoalPins(hit: Hit, fetch: Source -> Option<Release>, allowMajor: bool, sp: char -> bool, brk: char -> bool)
    requires Honest(fetch) && Ordinary(sp, brk) && Tight(hit.ref, sp)
    ensures var d, latest := Decide(fetch, allowMajor, sp), fetch(ResolveSource(Name(hit, sp)));
      var h' := Goal(d, sp)(hit);
      if d(hit).Some? then
        latest.Some? && Pin(hit, sp).Some? && Pin(h', sp) == Some(latest.value.version)
        && Less(Pin(hit, sp).value, latest.value.version)
        && (allowMajor || latest.value.version[0] == Pin(hit, sp).value[0])
      else h' == hit
  {
    GoalSplits(hit, fetch, allowMajor, sp, brk);
    DecideMeaning(hit, fetch, allowMajor, sp);
  }

  /** Where a reference goes, nothing more is to be done. */
  lemma GoalIdle(hit: Hit, fetch: Source -> Option<Release>, allowMajor: bool, sp: char -> bool, brk: char -> bool)
    requires Honest(fetch) && Ordinary(sp, brk) && Tight(hit.ref, sp)
    ensures var d := Decide(fetch, allowMajor, sp); d(Goal(d, sp)(hit)).None?
  {
    var d := Decide(fetch, allowMajor, sp);
    GoalPins(hit, fetch, allowMajor, sp, brk);
    GoalSplits(hit, fetch, allowMajor, sp, brk);
    DecideMeaning(Goal(d, sp)(hit), fetch, allowMajor, sp);
    if d(hit).Some? {
      var latest := fetch(ResolveSource(Name(hit, sp))).value.version;
      LessTrichotomy(latest, latest);
    }
  }

  /** Where a reference goes, nothing more is to be done, and its version has not gone down. */
  lemma GoalSettled(hit: Hit, fetch: Source -> Option<Release>, allowMajor: bool, sp: char -> bool, brk: char -> bool)
    requires Honest(fetch) && Ordinary(sp, brk) && Tight(hit.ref, sp)
    ensures var d := Decide(fetch, allowMajor, sp); var h' := Goal(d, sp)(hit);
      d(h').None? && Advances(hit, h', sp) && (!allowMajor ==> SameMajor(hit, h', sp))
  {
    var d := Decide(fetch, allowMajor, sp);
    GoalIdle(hit, fetch, allowMajor, sp, brk);
    GoalPins(hit, fetch, allowMajor, sp, brk);
    GoalSplits(hit, fetch, allowMajor, sp, brk);
    if d(hit).Some? {
      MoveAdvances(hit, Goal(d, sp)(hit), sp);
    } else {
      AdvancesReflexive(hit, sp);
    }
  }

  lemma MoveAdvances(h: Hit, h': Hit, sp: char -> bool)
    requires h'.service == h.service && Name(h', sp) == Name(h, sp)
    requires Pin(h, sp).Some? && Pin(h', sp).Some? && Less(Pin(h, sp).value, Pin(h', sp).value)
    ensures Advances(h, h', sp)
    ensures Pin(h, sp).value != [] && Pin(h', sp).value != [] && Pin(h, sp).value[0] == Pin(h', sp).value[0] ==>
      SameMajor(h, h', sp)
  {
    LessTrichotomy(Pin(h', sp).value, Pin(h, sp).value);
    FirstOnly(Pin(h, sp).value, Pin(h', sp).value);
  }

  lemma FirstOnly(a: Version, b: Version)
    ensures a != [] && b != [] && a[0] == b[0] ==> a[..1] == b[..1]
  {
  }

  /** Every reference found is free of surrounding blanks. */
  lemma EntriesTight(text: string, k: nat, sp: char -> bool, brk: char -> bool)
    requires k < |Entries(text, sp, brk)|
    ensures Tight(Entries(text, sp, brk)[k].hit.ref, sp)
  {
    var st := EntryAt(text, hit => None, k, sp, brk);
    var c := Content(SplitKeep(text, brk)[Entries(text, sp, brk)[k].lineNo - 1], brk);
    StepShape(st, c, sp);
    var a, b := StripPieces(MatchImage(c, sp).value.body, sp);
  }

  // ---------- Whole files ----------

  function AuditPass(text: string, fetch: Source -> Option<Release>, allowMajor: bool, sp: char -> bool,
                     brk: char -> bool): string {
    Pass(text, Decide(fetch, allowMajor, sp), sp, brk)
  }

  /** What one audit-and-apply pass does to every entry of a file. */
  lemma PassEntry(text: string, fetch: Source -> Option<Release>, allowMajor: bool, k: nat, sp: char -> bool,
                  brk: char -> bool)
    requires Honest(fetch) && Ordinary(sp, brk) && k < |Entries(text, sp, brk)|
    ensures var d := Decide(fetch, allowMajor, sp);
      var es, es' := Entries(text, sp, brk), Entries(AuditPass(text, fetch, allowMajor, sp, brk), sp, brk);
      && |es'| == |es|
      && es'[k].hit.service == es[k].hit.service && Name(es'[k].hit, sp) == Name(es[k].hit, sp)
      && (if d(es[k].hit).Some? then Tag(es'[k].hit, sp) == d(es[k].hit).value else es'[k].hit == es[k].hit)
      && d(es'[k].hit).None?
      && Advances(es[k].hit, es'[k].hit, sp) && (!allowMajor ==> SameMajor(es[k].hit, es'[k].hit, sp))
  {
    var d := Decide(fetch, allowMajor, sp);
    DecideSuits(fetch, allowMajor, sp, brk);
    RescanFindsGoals(text, d, sp, brk);
    EntriesTight(text, k, sp, brk);
    GoalSplits(Entries(text, sp, brk)[k].hit, fetch, allowMajor, sp, brk);
    GoalSettled(Entries(text, sp, brk)[k].hit, fetch, allowMajor, sp, brk);
  }

  lemma PassCount(text: string, fetch: Source -> Option<Release>, allowMajor: bool, sp: char -> bool, brk: char -> bool)
    requires Honest(fetch) && Ordinary(sp, brk)
    ensures |Entries(AuditPass(text, fetch, allowMajor, sp, brk), sp, brk)| == |Entries(text, sp, brk)|
  {
    DecideSuits(fetch, allowMajor, sp, brk);
    RescanFindsGoals(text, Decide(fetch, allowMajor, sp), sp, brk);
  }

  /** Against an unchanged registry a second pass proposes nothing and leaves the file as it is. */
  lemma SecondPassIdle(text: string, fetch: Source -> Option<Release>, allowMajor: bool, sp: char -> bool,
                       brk: char -> bool)
    requires Honest(fetch) && Ordinary(sp, brk)
    ensures var once := AuditPass(text, fetch, allowMajor, sp, brk);
      && (forall e <- Entries(once, sp, brk) :: Decide(fetch, allowMajor, sp)(e.hit).None?)
      && AuditPass(once, fetch, allowMajor, sp, brk) == once
  {
    var once := AuditPass(text, fetch, allowMajor, sp, brk);
    var d, es := Decide(fetch, allowMajor, sp), Entries(once, sp, brk);
    PassCount(text, fetch, allowMajor, sp, brk);
    forall k | 0 <= k < |es| ensures d(es[k].hit).None? { PassEntry(text, fetch, allowMajor, k, sp, brk); }
    NothingToDo(once, d, sp, brk);
  }

  lemma NothingToDo(text: string, d: Hit -> Option<string>, sp: char -> bool, brk: char -> bool)
    requires forall k :: 0 <= k < |Entries(text, sp, brk)| ==> d(Entries(text, sp, brk)[k].hit).None?
    ensures Pass(text, d, sp, brk) == text
  {
    var es, edit := Entries(text, sp, brk), Editor(d, Changer(sp));
    forall k, line | 0 <= k < |es| ensures edit(line, es[k].hit) == line { EditIdle(line, es[k].hit, d, sp); }
    RewriteNothing(SplitKeep(text, brk), START, 1, Stepper(sp, brk), edit);
    SplitKeepSound(text, brk);
  }

  lemma EditIdle(line: string, hit: Hit, d: Hit -> Option<string>, sp: char -> bool)
    requires d(hit).None?
    ensures Editor(d, Changer(sp))(line, hit) == line
  {
  }

  /** With major moves allowed, a pass leaves no pinned entry behind any stable tag its source lists. */
  lemma PassReachesNewest(text: string, fetch: Source -> Option<Release>, k: nat, tags: seq<string>, sp: char -> bool,
                          brk: char -> bool)
    requires Honest(fetch) && Ordinary(sp, brk) && k < |Entries(text, sp, brk)|
    requires fetch(ResolveSource(Name(Entries(text, sp, brk)[k].hit, sp))) == Finish(None, Some(tags))
    ensures var es' := Entries(AuditPass(text, fetch, true, sp, brk), sp, brk);
      && k < |es'|
      && (Pin(es'[k].hit, sp).Some? ==> forall t <- tags ::
            StableVersion(t).Some? ==> !Less(Pin(es'[k].hit, sp).value, StableVersion(t).value))
  {
    PassEntry(text, fetch, true, k, sp, brk);
    var h' := Entries(AuditPass(text, fetch, true, sp, brk), sp, brk)[k].hit;
    DecideMeaning(h', fetch, true, sp);
    FinishMeaning(Some(tags));
    if Pin(h', sp).Some? {
      forall t <- tags | StableVersion(t).Some? ensures !Less(Pin(h', sp).value, StableVersion(t).value) {
        var j :| 0 <= j < |tags| && tags[j] == t;
        var latest := Finish(None, Some(tags)).value;
        NotBehind(Pin(h', sp).value, latest.version, StableVersion(tags[j]).value);
      }
    }
  }

  lemma NotBehind(a: Version, b: Version, c: Version)
    requires !Less(a, b) && !Less(b, c)
    ensures !Less(a, c)
  {
    LessTrichotomy(a, b);
    LessTrichotomy(b, c);
    LessTrichotomy(a, c);
    if Less(a, c) {
      if Less(b, a) { LessTransitive(b, a, c); }
    }
  }

  /** Lookups are honest, whatever the registries answer. */
  lemma LatestIsHonest(reg: Registries, sp: char -> bool)
    ensures Honest(Latest(reg, sp))
  {
    forall s | Latest(reg, sp)(s).Some?
      ensures StableVersion(Latest(reg, sp)(s).value.tag) == Some(Latest(reg, sp)(s).value.version)
    {
      LatestMeaning(s, reg, sp);
    }
  }

  /** The entries of several files, file after file. */
  function AllEntries(texts: seq<string>, sp: char -> bool, brk: char -> bool): seq<Found<Hit>> {
    if texts == [] then [] else Entries(texts[0], sp, brk) + AllEntries(texts[1..], sp, brk)
  }

  lemma AuditAllAppend(a: seq<Found<Hit>>, b: seq<Found<Hit>>, decide: Hit -> Option<string>)
    ensures AuditAll(a + b, decide) == AuditAll(a, decide) + AuditAll(b, decide)
  {
  }

  /** The verdicts on the first file's entries come first. */
  lemma FirstFile(texts: seq<string>, decide: Hit -> Option<string>, sp: char -> bool, brk: char -> bool)
    requires texts != []
    ensures var es, all := Entries(texts[0], sp, brk), AuditAll(AllEntries(texts, sp, brk), decide);
      && |es| <= |all| && all[..|es|] == AuditAll(es, decide)
      && all[|es|..] == AuditAll(AllEntries(texts[1..], sp, brk), decide)
  {
    AuditAllAppend(Entries(texts[0], sp, brk), AllEntries(texts[1..], sp, brk), decide);
  }

  /** `entries` and the entries of the files from `i` on are all the entries. */
  ghost predicate Loaded(texts: seq<string>, i: nat, entries: seq<Found<Hit>>, sp: char -> bool, brk: char -> bool) {
    i <= |texts| && entries + AllEntries(texts[i..], sp, brk) == AllEntries(texts, sp, brk)
  }

  lemma LoadedNext(texts: seq<string>, i: nat, entries: seq<Found<Hit>>, sp: char -> bool, brk: char -> bool)
    requires i < |texts| && Loaded(texts, i, entries, sp, brk)
    ensures Loaded(texts, i + 1, entries + Entries(texts[i], sp, brk), sp, brk)
  {
    var es, rest := Entries(texts[i], sp, brk), AllEntries(texts[i + 1..], sp, brk);
    assert texts[i..][0] == texts[i] && texts[i..][1..] == texts[i + 1..];
    Regroup(entries, es, rest);
  }

  lemma Regroup(a: seq<Found<Hit>>, b: seq<Found<Hit>>, c: seq<Found<Hit>>)
    ensures a + (b + c) == a + b + c
  {
  }

  lemma LoadedAll(texts: seq<string>, entries: seq<Found<Hit>>, sp: char -> bool, brk: char -> bool)
    requires Loaded(texts, |texts|, entries, sp, brk)
    ensures entries == AllEntries(texts, sp, brk)
  {
    assert texts[|texts|..] == [];
  }

  /** How many entries each of the first files has. */
  ghost predicate Counted(texts: seq<string>, counts: seq<nat>, sp: char -> bool, brk: char -> bool) {
    |counts| <= |texts| && forall i :: 0 <= i < |counts| ==> counts[i] == |Entries(texts[i], sp, brk)|
  }

  lemma CountedNext(texts: seq<string>, counts: seq<nat>, sp: char -> bool, brk: char -> bool)
    requires Counted(texts, counts, sp, brk) && |counts| < |texts|
    ensures Counted(texts, counts + [|Entries(texts[|counts|], sp, brk)|], sp, brk)
  {
  }

  lemma LoadedNone(texts: seq<string>, sp: char -> bool, brk: char -> bool)
    ensures Loaded(texts, 0, [], sp, brk)
  {
    assert texts[0..] == texts;
  }

  /** Scan every file. */
  method LoadAll(texts: seq<string>, sp: char -> bool, brk: char -> bool)
    returns (entries: seq<Found<Hit>>, counts: seq<nat>)
    ensures entries == AllEntries(texts, sp, brk)
    ensures |counts| == |texts| && Counted(texts, counts, sp, brk)
  {
    entries, counts := [], [];
    LoadedNone(texts, sp, brk);
    for i := 0 to |texts|
      invariant Loaded(texts, i, entries, sp, brk)
      invariant |counts| == i && Counted(texts, counts, sp, brk)
    {
      var es := LoadComposeImages(texts[i], sp, brk);
      LoadedNext(texts, i, entries, sp, brk);
      CountedNext(texts, counts, sp, brk);
      entries, counts := entries + es, counts + [|es|];
    }
    LoadedAll(texts, entries, sp, brk);
  }

  /** The files done so far have each had their pass, and are as they were if nothing was changed. */
  ghost predicate Passed(texts: seq<string>, results: seq<string>, changes: nat, pass: string -> string) {
    && |results| <= |texts| && (forall k :: 0 <= k < |results| ==> results[k] == pass(texts[k]))
    && (changes == 0 ==> forall k :: 0 <= k < |results| ==> results[k] == texts[k])
  }

  lemma PassedNext(texts: seq<string>, results: seq<string>, changes: nat, pass: string -> string, result: string,
                   n: nat)
    requires Passed(texts, results, changes, pass) && |results| < |texts|
    requires result == pass(texts[|results|]) && (n == 0 ==> result == texts[|results|])
    ensures Passed(texts, results + [result], changes + n, pass)
  {
  }

  function Passer(decide: Hit -> Option<string>, sp: char -> bool, brk: char -> bool): string -> string {
    text => Pass(text, decide, sp, brk)
  }

  /** `rest` holds the verdicts on the files from `i` on. */
  ghost predicate Left(texts: seq<string>, i: nat, rest: seq<Audited<Hit>>, decide: Hit -> Option<string>,
                       sp: char -> bool, brk: char -> bool)
  {
    i <= |texts| && rest == AuditAll(AllEntries(texts[i..], sp, brk), decide)
  }

  lemma LeftNext(texts: seq<string>, i: nat, rest: seq<Audited<Hit>>, decide: Hit -> Option<string>, sp: char -> bool,
                 brk: char -> bool)
    requires i < |texts| && Left(texts, i, rest, decide, sp, brk)
    ensures var es := Entries(texts[i], sp, brk);
      && |es| <= |rest| && rest[..|es|] == AuditAll(es, decide) && Left(texts, i + 1, rest[|es|..], decide, sp, brk)
  {
    FirstFile(texts[i..], decide, sp, brk);
    assert texts[i..][0] == texts[i] && texts[i..][1..] == texts[i + 1..];
  }

  method ApplyOne(text: string, audited: seq<Audited<Hit>>, ghost decide: Hit -> Option<string>, sp: char -> bool,
                  brk: char -> bool)
    returns (result: string, changes: nat)
    requires Suits(decide, sp, brk) && audited == AuditAll(Entries(text, sp, brk), decide)
    ensures result == Passer(decide, sp, brk)(text) && (changes == 0 ==> result == text)
  {
    result, changes := ApplyUpdates(text, audited, sp, brk);
  }

  /** Overwrite lines file by file; every file gets its own pass. */
  method ApplyAll(texts: seq<string>, audited: seq<Audited<Hit>>, counts: seq<nat>, ghost decide: Hit -> Option<string>,
                  sp: char -> bool, brk: char -> bool)
    returns (results: seq<string>, changes: nat)
    requires Suits(decide, sp, brk) && audited == AuditAll(AllEntries(texts, sp, brk), decide)
    requires |counts| == |texts| && Counted(texts, counts, sp, brk)
    ensures |results| == |texts| && Passed(texts, results, changes, Passer(decide, sp, brk))
  {
    results, changes := [], 0;
    var rest := audited;
    assert texts[0..] == texts;
    for i := 0 to |texts|
      invariant Left(texts, i, rest, decide, sp, brk)
      invariant |results| == i && Passed(texts, results, changes, Passer(decide, sp, brk))
    {
      LeftNext(texts, i, rest, decide, sp, brk);
      var result, n := ApplyOne(texts[i], rest[..counts[i]], decide, sp, brk);
      PassedNext(texts, results, changes, Passer(decide, sp, brk), result, n);
      results, changes, rest := results + [result], changes + n, rest[counts[i]..];
    }
  }

  /** The script: scan all files, look every source up once for all of them, decide, and overwrite lines. */
  method AuditAndApply(texts: seq<string>, reg: Registries, allowMajor: bool, sp: char -> bool, brk: char -> bool)
    returns (results: seq<string>, changes: nat, fetched: seq<Source>)
    requires Ordinary(sp, brk)
    ensures |results| == |texts|
    ensures forall i :: 0 <= i < |texts| ==> results[i] == AuditPass(texts[i], Latest(reg, sp), allowMajor, sp, brk)
    ensures changes == 0 ==> results == texts
    ensures forall i, j :: 0 <= i < j < |fetched| ==> fetched[i] != fetched[j]
    ensures var es := AllEntries(texts, sp, brk);
      forall s :: s in fetched <==> exists k :: 0 <= k < |es| && ResolveSource(Name(es[k].hit, sp)) == s
  {
    var entries, counts := LoadAll(texts, sp, brk);
    var audited;
    audited, fetched := Audit(entries, Latest(reg, sp), allowMajor, sp);
    LatestIsHonest(reg, sp);
    DecideSuits(Latest(reg, sp), allowMajor, sp, brk);
    results, changes := ApplyAll(texts, audited, counts, Decide(Latest(reg, sp), allowMajor, sp), sp, brk);
  }

  // ---------- Many passes ----------

  /** One pass of a run: the registry as it answers then, and the policy on major moves. */
  datatype Policy = Policy(fetch: Source -> Option<Release>, allowMajor: bool)

  function Passes(text: string, ps: seq<Policy>, sp: char -> bool, brk: char -> bool): string
    decreases |ps|
  {
    if ps == [] then text
    else Passes(AuditPass(text, ps[0].fetch, ps[0].allowMajor, sp, brk), ps[1..], sp, brk)
  }

  ghost predicate Tracked(es: seq<Found<Hit>>, es': seq<Found<Hit>>, minor: bool, sp: char -> bool) {
    && |es'| == |es|
    && forall k :: 0 <= k < |es| ==>
      Advances(es[k].hit, es'[k].hit, sp) && (minor ==> SameMajor(es[k].hit, es'[k].hit, sp))
  }

  lemma AdvancesTransitive(a: Hit, b: Hit, c: Hit, sp: char -> bool)
    requires Advances(a, b, sp) && Advances(b, c, sp)
    ensures Advances(a, c, sp)
    ensures SameMajor(a, b, sp) && SameMajor(b, c, sp) ==> SameMajor(a, c, sp)
  {
    if Pin(a, sp).Some? { NotBehind(Pin(c, sp).value, Pin(b, sp).value, Pin(a, sp).value); }
  }

  /** Over any number of passes, whatever the registries answer: the same entries in the same order, no pinned
      version ever goes down, and without leave no major version changes. */
  lemma {:induction false} RunsAdvance(text: string, ps: seq<Policy>, sp: char -> bool, brk: char -> bool)
    requires Ordinary(sp, brk) && forall p <- ps :: Honest(p.fetch)
    ensures Tracked(Entries(text, sp, brk), Entries(Passes(text, ps, sp, brk), sp, brk),
                    forall p <- ps :: !p.allowMajor, sp)
    decreases |ps|
  {
    var es := Entries(text, sp, brk);
    if ps == [] {
      forall k | 0 <= k < |es| ensures Advances(es[k].hit, es[k].hit, sp) { AdvancesReflexive(es[k].hit, sp); }
    } else {
      var p := ps[0];
      assert p in ps;
      var mid := AuditPass(text, p.fetch, p.allowMajor, sp, brk);
      RunsAdvance(mid, ps[1..], sp, brk);
      PassCount(text, p.fetch, p.allowMajor, sp, brk);
      var ms, es' := Entries(mid, sp, brk), Entries(Passes(mid, ps[1..], sp, brk), sp, brk);
      var minor := forall p <- ps :: !p.allowMajor;
      assert minor ==> forall p <- ps[1..] :: !p.allowMajor;
      forall k | 0 <= k < |es|
        ensures Advances(es[k].hit, es'[k].hit, sp) && (minor ==> SameMajor(es[k].hit, es'[k].hit, sp))
      {
        PassEntry(text, p.fetch, p.allowMajor, k, sp, brk);
        AdvancesTransitive(es[k].hit, ms[k].hit, es'[k].hit, sp);
      }
    }
  }

  lemma AdvancesReflexive(h: Hit, sp: char -> bool)
    ensures Advances(h, h, sp)
  {
    if Pin(h, sp).Some? { LessTrichotomy(Pin(h, sp).value, Pin(h, sp).value); }
  }
}
