/** The first-run script's rewriting of the settings file: connection settings, compose profiles, security posture
    and the API key, all through one line-by-line editor. */
module FirstRun {
  import opened Text
  import opened Lists
  import opened EnvRecords

  // ---------- Profiles ----------

  predicate IsComma(c: char) { c == ',' }

  /** What separates words for `xargs`. */
  predicate IsBlank(c: char) { c == ' ' || c == '\t' || c == '\n' }

  predicate NonEmpty(s: string) { s != "" }

  /** The pieces between separators, empty ones included. */
  function Fields(s: string, sep: char -> bool): (parts: seq<string>)
    ensures parts != []
  {
    var n := Until(s, sep);
    if n == |s| then [s] else [s[..n]] + Fields(s[n + 1..], sep)
  }

  function Join(parts: seq<string>, c: char): string {
    if parts == [] then "" else if |parts| == 1 then parts[0] else parts[0] + [c] + Join(parts[1..], c)
  }

  /** The words of a part, one space apart. */
  function Squeeze(part: string): string {
    Join(Filter(Fields(part, IsBlank), NonEmpty), ' ')
  }

  function Squeezed(parts: seq<string>): seq<string> {
    if parts == [] then [] else [Squeeze(parts[0])] + Squeezed(parts[1..])
  }

  const DEFAULT_PROFILES := "core,analytics,llm,observability"

  function Named(current: string): seq<string> {
    Filter(Squeezed(Fields(if current == "" then DEFAULT_PROFILES else current, IsComma)), NonEmpty)
  }

  predicate NotLlm(p: string) { p != "llm" }

  function Chosen(named: seq<string>, external: bool): (r: seq<string>)
    ensures r != []
  {
    var kept := if external then Filter(named, NotLlm) else if "llm" in named then named else named + ["llm"];
    if kept == [] then ["core"] else kept
  }

  function Profiles(current: string, external: bool): string {
    Join(Chosen(Named(current), external), ',')
  }

  lemma {:induction false} FieldsSound(s: string, sep: char -> bool, p: char -> bool)
    requires Never(s, p)
    ensures forall f <- Fields(s, sep) :: Never(f, sep) && Never(f, p)
    decreases |s|
  {
    var n := Until(s, sep);
    if n < |s| { FieldsSound(s[n + 1..], sep, p); }
  }

  lemma FieldsCons(head: string, c: char, tail: string, sep: char -> bool)
    requires Never(head, sep) && sep(c)
    ensures Fields(head + [c] + tail, sep) == [head] + Fields(tail, sep)
  {
    var s := head + [c] + tail;
    assert s[|head|] == c && forall i :: 0 <= i < |head| ==> s[i] == head[i];
    UntilUnique(s, sep, |head|);
    assert s[..|head|] == head && s[|head| + 1..] == tail;
  }

  lemma {:induction false} FieldsOfJoin(parts: seq<string>, c: char, sep: char -> bool)
    requires parts != [] && sep(c) && forall i :: 0 <= i < |parts| ==> Never(parts[i], sep)
    ensures Fields(Join(parts, c), sep) == parts
  {
    if |parts| == 1 {
      UntilUnique(parts[0], sep, |parts[0]|);
    } else {
      FieldsOfJoin(parts[1..], c, sep);
      FieldsCons(parts[0], c, Join(parts[1..], c), sep);
    }
  }

  lemma {:induction false} NeverJoin(parts: seq<string>, c: char, p: char -> bool)
    requires !p(c) && forall i :: 0 <= i < |parts| ==> Never(parts[i], p)
    ensures Never(Join(parts, c), p)
  {
    if |parts| > 1 { NeverJoin(parts[1..], c, p); }
  }

  lemma SqueezeSound(part: string, p: char -> bool)
    requires !p(' ') && Never(part, p)
    ensures Never(Squeeze(part), p)
  {
    FieldsSound(part, IsBlank, p);
    NeverJoin(Filter(Fields(part, IsBlank), NonEmpty), ' ', p);
  }

  lemma SqueezeIdempotent(part: string)
    ensures Squeeze(Squeeze(part)) == Squeeze(part)
  {
    var words := Filter(Fields(part, IsBlank), NonEmpty);
    FieldsSound(part, IsBlank, c => false);
    if words == [] {
      assert Fields("", IsBlank) == [""];
      FilterNone([""], NonEmpty);
    } else {
      forall i | 0 <= i < |words| ensures Never(words[i], IsBlank) && NonEmpty(words[i]) {
        assert words[i] in words;
      }
      FieldsOfJoin(words, ' ', IsBlank);
      FilterAll(words, NonEmpty);
    }
  }

  /** A single word is its own tidy form. */
  lemma SqueezeWord(w: string)
    requires w != "" && Never(w, IsBlank)
    ensures Squeeze(w) == w
  {
    UntilUnique(w, IsBlank, |w|);
    FilterAll([w], NonEmpty);
  }

  /** What a profile name looks like after the loop. */
  ghost predicate Tidy(p: string) {
    p != "" && Squeeze(p) == p && Never(p, IsComma) && Never(p, IsNewline)
  }

  ghost predicate AllTidy(ps: seq<string>) { forall i :: 0 <= i < |ps| ==> Tidy(ps[i]) }

  lemma {:induction false} SqueezedTidy(parts: seq<string>)
    requires forall i :: 0 <= i < |parts| ==> Never(parts[i], IsComma) && Never(parts[i], IsNewline)
    ensures forall p <- Squeezed(parts) :: p != "" ==> Tidy(p)
  {
    if parts != [] {
      SqueezedTidy(parts[1..]);
      SqueezeSound(parts[0], IsComma);
      SqueezeSound(parts[0], IsNewline);
      SqueezeIdempotent(parts[0]);
    }
  }

  lemma {:induction false} SqueezedIdle(parts: seq<string>)
    requires AllTidy(parts)
    ensures Squeezed(parts) == parts
  {
    if parts != [] { SqueezedIdle(parts[1..]); }
  }

  lemma NamedTidy(current: string)
    requires Never(current, IsNewline)
    ensures AllTidy(Named(current))
  {
    var text := if current == "" then DEFAULT_PROFILES else current;
    assert Never(text, IsNewline);
    FieldsSound(text, IsComma, IsNewline);
    var parts := Fields(text, IsComma);
    forall i | 0 <= i < |parts| ensures Never(parts[i], IsComma) && Never(parts[i], IsNewline) {
      assert parts[i] in parts;
    }
    SqueezedTidy(parts);
    forall i | 0 <= i < |Named(current)| ensures Tidy(Named(current)[i]) { assert Named(current)[i] in Named(current); }
  }

  lemma ChosenTidy(named: seq<string>, external: bool)
    requires AllTidy(named)
    ensures AllTidy(Chosen(named, external))
  {
    WordTidy("llm");
    WordTidy("core");
    FilterTidy(named);
  }

  lemma WordTidy(w: string)
    requires w != "" && Never(w, IsBlank) && Never(w, IsComma)
    ensures Tidy(w)
  {
    SqueezeWord(w);
  }

  lemma FilterTidy(named: seq<string>)
    requires AllTidy(named)
    ensures AllTidy(Filter(named, NotLlm))
  {
    var kept := Filter(named, NotLlm);
    forall i | 0 <= i < |kept| ensures Tidy(kept[i]) { assert kept[i] in kept; }
  }

  lemma ChosenIdle(named: seq<string>, external: bool)
    ensures Chosen(Chosen(named, external), external) == Chosen(named, external)
  {
    var r := Chosen(named, external);
    if external {
      forall i | 0 <= i < |r| ensures NotLlm(r[i]) { assert r[i] in r; }
      FilterAll(r, NotLlm);
    }
  }

  /** The names in the written value are exactly the chosen ones. */
  lemma NamedOfProfiles(current: string, external: bool)
    requires Never(current, IsNewline)
    ensures Named(Profiles(current, external)) == Chosen(Named(current), external)
    ensures Never(Profiles(current, external), IsNewline)
  {
    var r := Chosen(Named(current), external);
    NamedTidy(current);
    ChosenTidy(Named(current), external);
    FieldsOfJoin(r, ',', IsComma);
    NeverJoin(r, ',', IsNewline);
    SqueezedIdle(r);
    FilterAll(r, NonEmpty);
    assert Tidy(r[0]);
    assert Join(r, ',') != "";
  }

  /** The local language-model profile is on exactly in local mode; all other names stay, in order. */
  lemma ProfilesMeaning(current: string, external: bool)
    requires Never(current, IsNewline)
    ensures var names := Named(Profiles(current, external));
      && ("llm" in names <==> !external)
      && Filter(names, NotLlm) ==
         if external && Filter(Named(current), NotLlm) == [] then ["core"] else Filter(Named(current), NotLlm)
  {
    NamedOfProfiles(current, external);
    var named := Named(current);
    FilterFilter(named, NotLlm, NotLlm);
    FilterAgree(named, Both(NotLlm, NotLlm), NotLlm);
    FilterAppend(named, ["llm"], NotLlm);
    FilterNone(["llm"], NotLlm);
    FilterAll(["core"], NotLlm);
  }

  lemma ProfilesIdempotent(current: string, external: bool)
    requires Never(current, IsNewline)
    ensures Profiles(Profiles(current, external), external) == Profiles(current, external)
  {
    NamedOfProfiles(current, external);
    ChosenIdle(Named(current), external);
  }

  // ---------- What the profiles are cleaned of ----------

  /** Spaces, tabs and line feeds separate words alike. */
  lemma BlanksAlike(a: string, c: char, d: char, b: string)
    requires c in " \t\n" && d in " \t\n"
    ensures Squeeze(a + [c] + b) == Squeeze(a + [d] + b)
  {
    FieldsApart(a, c, b, IsBlank);
    FieldsApart(a, d, b, IsBlank);
  }

  lemma {:induction false} FieldsApart(a: string, c: char, b: string, sep: char -> bool)
    requires sep(c)
    ensures Fields(a + [c] + b, sep) == Fields(a, sep) + Fields(b, sep)
    decreases |a|
  {
    var n := Until(a, sep);
    if n == |a| {
      FieldsCons(a, c, b, sep);
    } else {
      var head, rest := a[..n], a[n + 1..];
      FieldsApart(rest, c, b, sep);
      FieldsAhead(a, n, c, b, sep);
      ConsAppend(head, Fields(rest, sep), Fields(b, sep));
    }
  }

  lemma FieldsAhead(a: string, n: nat, c: char, b: string, sep: char -> bool)
    requires n < |a| && n == Until(a, sep)
    ensures Fields(a, sep) == [a[..n]] + Fields(a[n + 1..], sep)
    ensures Fields(a + [c] + b, sep) == [a[..n]] + Fields(a[n + 1..] + [c] + b, sep)
  {
    assert a + [c] + b == a[..n] + [a[n]] + (a[n + 1..] + [c] + b);
    FieldsCons(a[..n], a[n], a[n + 1..] + [c] + b, sep);
  }

  lemma JoinFour(a: string, b: string, c: string, d: string, x: char)
    ensures Join([a, b, c, d], x) == a + [x] + (b + [x] + (c + [x] + d))
  {
    assert [a, b, c, d][1..] == [b, c, d] && [b, c, d][1..] == [c, d] && [c, d][1..] == [d];
    assert Join([c, d], x) == c + [x] + Join([d], x);
    assert Join([b, c, d], x) == b + [x] + Join([c, d], x);
  }

  ghost predicate PlainWord(w: string) { w != "" && Never(w, IsComma) && Never(w, IsBlank) }

  lemma FourWords()
    ensures PlainWord("core") && PlainWord("analytics") && PlainWord("llm") && PlainWord("observability")
  {
  }

  lemma NamedFour(a: string, b: string, c: string, d: string)
    requires PlainWord(a) && PlainWord(b) && PlainWord(c) && PlainWord(d)
    ensures Filter(Squeezed(Fields(Join([a, b, c, d], ','), IsComma)), NonEmpty) == [a, b, c, d]
  {
    FieldsOfJoin([a, b, c, d], ',', IsComma);
    SqueezedWords([a, b, c, d]);
    FilterAll([a, b, c, d], NonEmpty);
  }

  lemma DefaultSpelled()
    ensures DEFAULT_PROFILES == "core" + [','] + ("analytics" + [','] + ("llm" + [','] + "observability"))
  {
  }

  lemma NamedDefault(a: string, b: string, c: string, d: string)
    requires PlainWord(a) && PlainWord(b) && PlainWord(c) && PlainWord(d)
    requires DEFAULT_PROFILES == a + [','] + (b + [','] + (c + [','] + d))
    ensures Named("") == [a, b, c, d]
  {
    JoinFour(a, b, c, d, ',');
    NamedFour(a, b, c, d);
  }

  /** Without any setting there are four profiles. */
  lemma DefaultProfiles()
    ensures Named("") == ["core", "analytics", "llm", "observability"]
  {
    FourWords();
    DefaultSpelled();
    NamedDefault("core", "analytics", "llm", "observability");
  }

  lemma {:induction false} SqueezedWords(words: seq<string>)
    requires forall i :: 0 <= i < |words| ==> words[i] != "" && Never(words[i], IsBlank)
    ensures Squeezed(words) == words
  {
    if words != [] {
      SqueezeWord(words[0]);
      SqueezedWords(words[1..]);
    }
  }

  // ---------- The whole run ----------

  datatype Setting = Setting(key: string, value: string)

  /** The script's options; an empty string stands for an option not given. */
  datatype Options = Options(external: bool, lettaKey: string, lettaUrl: string, insecure: bool, secretsMode: string)

  const API_KEY := "MEMMCP_ORCHESTRATOR_API_KEY"
  const PROFILES := "COMPOSE_PROFILES"

  function OnOff(b: bool): string { if b then "true" else "false" }

  function Letta(o: Options): seq<Setting> {
    (if o.external && o.lettaKey != "" then [Setting("LETTA_API_KEY", o.lettaKey)] else []) +
    (if o.external && o.lettaUrl != "" then [Setting("LETTA_URL", o.lettaUrl)] else []) +
    [Setting("LETTA_REQUIRE_API_KEY", OnOff(o.external))]
  }

  function Posture(o: Options): seq<Setting> {
    [Setting("SECRETS_STORAGE_MODE", if o.secretsMode == "" then "redact" else o.secretsMode),
     Setting("MEMMCP_ENV", if o.insecure then "development" else "production"),
     Setting("ORCH_SECURITY_STRICT", OnOff(!o.insecure)),
     Setting("ORCH_PUBLIC_STATUS", OnOff(o.insecure)),
     Setting("ORCH_PUBLIC_DOCS", OnOff(o.insecure)),
     Setting("MESSAGING_WEBHOOK_PUBLIC", OnOff(o.insecure)),
     Setting("HOST_BIND_ADDRESS", if o.insecure then "0.0.0.0" else "127.0.0.1")]
  }

  function SetAll(rs: seq<string>, ss: seq<Setting>): seq<string> {
    if ss == [] then rs else Put(SetAll(rs, ss[..|ss| - 1]), ss[|ss| - 1].key, ss[|ss| - 1].value)
  }

  /** What a run sets: connection settings, the profiles key and mode, the posture settings, and the key to generate. */
  datatype Plan = Plan(
    first: seq<Setting>, profiles: string, external: bool, second: seq<Setting>, key: string, wanted: bool)

  function PlanOf(o: Options): Plan {
    Plan(Letta(o), PROFILES, o.external, Posture(o), API_KEY, !o.insecure)
  }

  /** The profiles are computed from what the file says by then. */
  function Csv(rs: seq<string>, p: Plan): string {
    Profiles(LastAssigned(SetAll(rs, p.first), p.profiles), p.external)
  }

  function Configured(rs: seq<string>, p: Plan): seq<string> {
    SetAll(Put(SetAll(rs, p.first), p.profiles, Csv(rs, p)), p.second)
  }

  /** A key is generated only where none can be read. */
  function WithKey(rs: seq<string>, key: string, wanted: bool, generated: string): seq<string> {
    if wanted && Get(rs, key) == "" then Put(rs, key, generated) else rs
  }

  function AfterRun(rs: seq<string>, p: Plan, generated: string): seq<string> {
    WithKey(Configured(rs, p), p.key, p.wanted, generated)
  }

  /** Keys that can be set, no two alike. */
  ghost predicate Keyed(ss: seq<Setting>) {
    && (forall i :: 0 <= i < |ss| ==> IsKey(ss[i].key))
    && (forall i, j :: 0 <= i < j < |ss| ==> ss[i].key != ss[j].key)
  }

  ghost predicate AllSettled(rs: seq<string>, ss: seq<Setting>) {
    forall i :: 0 <= i < |ss| ==> Settled(rs, ss[i].key, ss[i].value)
  }

  lemma {:induction false} SetAllSettles(rs: seq<string>, ss: seq<Setting>)
    requires Keyed(ss)
    ensures AllSettled(SetAll(rs, ss), ss)
  {
    if ss != [] {
      var front, last := ss[..|ss| - 1], ss[|ss| - 1];
      SetAllSettles(rs, front);
      PutSettles(SetAll(rs, front), last.key, last.value);
      PutKeepsAll(SetAll(rs, front), front, last.key, last.value);
    }
  }

  lemma PutKeepsAll(rs: seq<string>, ss: seq<Setting>, k: string, v: string)
    requires Keyed(ss) && AllSettled(rs, ss) && IsKey(k) && forall i :: 0 <= i < |ss| ==> ss[i].key != k
    ensures AllSettled(Put(rs, k, v), ss)
  {
    forall i | 0 <= i < |ss| ensures Settled(Put(rs, k, v), ss[i].key, ss[i].value) {
      PutKeepsSettled(rs, k, v, ss[i].key, ss[i].value);
    }
  }

  lemma {:induction false} SetAllIdle(rs: seq<string>, ss: seq<Setting>)
    requires AllSettled(rs, ss)
    ensures SetAll(rs, ss) == rs
  {
    if ss != [] {
      SetAllIdle(rs, ss[..|ss| - 1]);
      PutSettledIdle(rs, ss[|ss| - 1].key, ss[|ss| - 1].value);
    }
  }

  lemma {:induction false} SetAllAppend(rs: seq<string>, a: seq<Setting>, b: seq<Setting>)
    ensures SetAll(rs, a + b) == SetAll(SetAll(rs, a), b)
  {
    if b == [] {
      assert a + b == a;
    } else {
      assert (a + b)[..|a + b| - 1] == a + b[..|b| - 1];
      SetAllAppend(rs, a, b[..|b| - 1]);
    }
  }

  lemma {:induction false} SetAllOther(rs: seq<string>, ss: seq<Setting>, k: string)
    requires Keyed(ss) && IsKey(k) && forall i :: 0 <= i < |ss| ==> ss[i].key != k
    ensures Get(SetAll(rs, ss), k) == Get(rs, k)
  {
    if ss != [] {
      SetAllOther(rs, ss[..|ss| - 1], k);
      GetOther(SetAll(rs, ss[..|ss| - 1]), ss[|ss| - 1].key, ss[|ss| - 1].value, k);
    }
  }

  ghost predicate Initials(ss: seq<Setting>, cs: set<char>) {
    forall i :: 0 <= i < |ss| ==> ss[i].key != "" && ss[i].key[0] in cs
  }

  lemma KeyedAppend(a: seq<Setting>, b: seq<Setting>, cs: set<char>, ds: set<char>)
    requires Keyed(a) && Keyed(b) && Initials(a, cs) && Initials(b, ds) && cs !! ds
    ensures Keyed(a + b) && Initials(a + b, cs + ds)
  {
  }

  /** The settings in three groups whose keys start differently. */
  lemma LettaKeyed(o: Options)
    ensures Keyed(Letta(o)) && Initials(Letta(o), {'L'})
  {
    assert IsKey("LETTA_API_KEY");
    assert IsKey("LETTA_URL");
    assert IsKey("LETTA_REQUIRE_API_KEY");
    assert |"LETTA_API_KEY"| == 13 && |"LETTA_URL"| == 9 && |"LETTA_REQUIRE_API_KEY"| == 21;
  }

  function PostureKeys(): seq<string> {
    ["SECRETS_STORAGE_MODE", "MEMMCP_ENV", "ORCH_SECURITY_STRICT", "ORCH_PUBLIC_STATUS", "ORCH_PUBLIC_DOCS",
     "MESSAGING_WEBHOOK_PUBLIC", "HOST_BIND_ADDRESS", API_KEY]
  }

  lemma PostureKeysPlain()
    ensures forall i :: 0 <= i < |PostureKeys()| ==> IsKey(PostureKeys()[i])
  {
    assert IsKey("SECRETS_STORAGE_MODE");
    assert IsKey("MEMMCP_ENV");
    assert IsKey("ORCH_SECURITY_STRICT");
    assert IsKey("ORCH_PUBLIC_STATUS");
    assert IsKey("ORCH_PUBLIC_DOCS");
    assert IsKey("MESSAGING_WEBHOOK_PUBLIC");
    assert IsKey("HOST_BIND_ADDRESS");
    assert IsKey(API_KEY);
  }

  lemma PostureKeysDistinct()
    ensures forall i, j :: 0 <= i < j < |PostureKeys()| ==> PostureKeys()[i] != PostureKeys()[j]
    ensures forall i :: 0 <= i < |PostureKeys()| ==>
      PostureKeys()[i] != "" && PostureKeys()[i][0] in {'S', 'M', 'O', 'H'}
  {
    var ks := PostureKeys();
    assert |ks[0]| == 20 && |ks[1]| == 10 && |ks[2]| == 20 && |ks[3]| == 18 && |ks[4]| == 16;
    assert |ks[5]| == 24 && |ks[6]| == 17 && |ks[7]| == 27;
    assert ks[0][0] == 'S' && ks[2][0] == 'O';
  }

  lemma PostureKeyed(o: Options)
    ensures Keyed(Posture(o) + [Setting(API_KEY, "")])
      && Initials(Posture(o) + [Setting(API_KEY, "")], {'S', 'M', 'O', 'H'})
  {
    var ss, ks := Posture(o) + [Setting(API_KEY, "")], PostureKeys();
    assert |ss| == |ks| && forall i :: 0 <= i < |ss| ==> ss[i].key == ks[i];
    PostureKeysPlain();
    PostureKeysDistinct();
  }

  /** All the settings of a run, given the profiles it computes. */
  function Settings(p: Plan, csv: string): seq<Setting> {
    p.first + [Setting(p.profiles, csv)] + p.second
  }

  ghost predicate OneLineValues(ss: seq<Setting>) {
    forall i :: 0 <= i < |ss| ==> Never(ss[i].value, IsNewline)
  }

  ghost predicate Fresh(ss: seq<Setting>, k: string) {
    IsKey(k) && forall i :: 0 <= i < |ss| ==> ss[i].key != k
  }

  /** All keys can be set and no two are alike; all values are single lines. */
  ghost predicate Workable(p: Plan) {
    && (forall csv :: Keyed(Settings(p, csv)) && Fresh(Settings(p, csv), p.key))
    && OneLineValues(p.first) && OneLineValues(p.second) && p.key != ""
  }

  /** Option values are single lines. */
  ghost predicate Sound(o: Options) {
    Never(o.lettaKey, IsNewline) && Never(o.lettaUrl, IsNewline) && Never(o.secretsMode, IsNewline)
  }

  lemma SettingsKeyed(o: Options, csv: string)
    ensures Keyed(Letta(o) + [Setting(PROFILES, csv)] + (Posture(o) + [Setting(API_KEY, "")]))
  {
    LettaKeyed(o);
    PostureKeyed(o);
    assert IsKey(PROFILES);
    KeyedAppend(Letta(o), [Setting(PROFILES, csv)], {'L'}, {'C'});
    KeyedAppend(Letta(o) + [Setting(PROFILES, csv)], Posture(o) + [Setting(API_KEY, "")],
                {'L', 'C'}, {'S', 'M', 'O', 'H'});
  }

  lemma PrefixKeyed(ss: seq<Setting>, k: string)
    requires Keyed(ss + [Setting(k, "")])
    ensures Keyed(ss) && Fresh(ss, k)
  {
    var all := ss + [Setting(k, "")];
    forall i | 0 <= i < |ss| ensures IsKey(ss[i].key) && ss[i].key != k {
      assert all[i] == ss[i] && all[|ss|].key == k;
    }
    forall i, j | 0 <= i < j < |ss| ensures ss[i].key != ss[j].key { assert all[i] == ss[i] && all[j] == ss[j]; }
    assert all[|ss|].key == k;
  }

  lemma ValuesOneLine(o: Options)
    requires Sound(o)
    ensures OneLineValues(Letta(o)) && OneLineValues(Posture(o))
  {
  }

  /** The script's own plan meets what the laws below ask of a plan. */
  lemma PlanWorkable(o: Options)
    requires Sound(o)
    ensures Workable(PlanOf(o))
  {
    ValuesOneLine(o);
    var p := PlanOf(o);
    forall csv ensures Keyed(Settings(p, csv)) && Fresh(Settings(p, csv), p.key) {
      SettingsKeyed(o, csv);
      Regroup(p.first + [Setting(p.profiles, csv)], p.second, [Setting(p.key, "")]);
      PrefixKeyed(Settings(p, csv), p.key);
    }
  }

  lemma Regroup(a: seq<Setting>, b: seq<Setting>, c: seq<Setting>)
    ensures a + (b + c) == a + b + c
  {
  }

  lemma ConfiguredIsSetAll(rs: seq<string>, p: Plan)
    ensures Configured(rs, p) == SetAll(rs, Settings(p, Csv(rs, p)))
  {
    var middle := [Setting(p.profiles, Csv(rs, p))];
    SetAllAppend(rs, p.first + middle, p.second);
    SetAllAppend(rs, p.first, middle);
    assert middle[..0] == [];
  }

  /** After a run every setting it makes is what every line assigning it says. */
  lemma RunSettles(rs: seq<string>, p: Plan, generated: string)
    requires Workable(p)
    ensures AllSettled(AfterRun(rs, p, generated), Settings(p, Csv(rs, p)))
  {
    var ss := Settings(p, Csv(rs, p));
    ConfiguredIsSetAll(rs, p);
    SetAllSettles(rs, ss);
    PutKeepsAll(SetAll(rs, ss), ss, p.key, generated);
  }

  /** The value a compose run reads for each of the settings, in whatever state the file was before. */
  lemma RunValues(rs: seq<string>, o: Options, generated: string, i: nat)
    requires Sound(o) && i < |Settings(PlanOf(o), Csv(rs, PlanOf(o)))|
    ensures var s := Settings(PlanOf(o), Csv(rs, PlanOf(o)))[i];
      LastAssigned(AfterRun(rs, PlanOf(o), generated), s.key) == s.value
  {
    PlanWorkable(o);
    RunSettles(rs, PlanOf(o), generated);
    var s := Settings(PlanOf(o), Csv(rs, PlanOf(o)))[i];
    SettledValue(AfterRun(rs, PlanOf(o), generated), s.key, s.value);
  }

  /** What a reader of the file finds under this key. */
  ghost predicate Says(rs: seq<string>, o: Options, generated: string, k: string, v: string) {
    LastAssigned(AfterRun(rs, PlanOf(o), generated), k) == v
  }

  lemma PostureSaid(rs: seq<string>, o: Options, generated: string, i: nat)
    requires Sound(o) && i < |Posture(o)|
    ensures Says(rs, o, generated, Posture(o)[i].key, Posture(o)[i].value)
  {
    var p := PlanOf(o);
    var csv := Csv(rs, p);
    assert Settings(p, csv)[|p.first| + 1 + i] == p.second[i];
    RunValues(rs, o, generated, |p.first| + 1 + i);
  }

  /** Loopback, strict, nothing public. */
  function Locked(): seq<Setting> {
    [Setting("MEMMCP_ENV", "production"), Setting("ORCH_SECURITY_STRICT", "true"),
     Setting("ORCH_PUBLIC_STATUS", "false"),
     Setting("ORCH_PUBLIC_DOCS", "false"), Setting("MESSAGING_WEBHOOK_PUBLIC", "false"),
     Setting("HOST_BIND_ADDRESS", "127.0.0.1")]
  }

  lemma LockedIsPosture(o: Options)
    requires !o.insecure
    ensures |Posture(o)| == 7 && Posture(o)[1..] == Locked()
  {
  }

  /** Without the insecure option the stack ends up locked down, whatever the file said before. */
  lemma SecureByDefault(rs: seq<string>, o: Options, generated: string, i: nat)
    requires Sound(o) && !o.insecure && i < |Locked()|
    ensures Says(rs, o, generated, Locked()[i].key, Locked()[i].value)
  {
    LockedIsPosture(o);
    var tail := Posture(o)[1..];
    assert tail[i] == Posture(o)[i + 1];
    PostureSaid(rs, o, generated, i + 1);
  }

  /** With the insecure option it ends up open. */
  function Open(): seq<Setting> {
    [Setting("MEMMCP_ENV", "development"), Setting("ORCH_SECURITY_STRICT", "false"),
     Setting("ORCH_PUBLIC_STATUS", "true"),
     Setting("ORCH_PUBLIC_DOCS", "true"), Setting("MESSAGING_WEBHOOK_PUBLIC", "true"),
     Setting("HOST_BIND_ADDRESS", "0.0.0.0")]
  }

  lemma OpenIsPosture(o: Options)
    requires o.insecure
    ensures |Posture(o)| == 7 && Posture(o)[1..] == Open()
  {
  }

  lemma InsecureIsOpen(rs: seq<string>, o: Options, generated: string, i: nat)
    requires Sound(o) && o.insecure && i < |Open()|
    ensures Says(rs, o, generated, Open()[i].key, Open()[i].value)
  {
    OpenIsPosture(o);
    var tail := Posture(o)[1..];
    assert tail[i] == Posture(o)[i + 1];
    PostureSaid(rs, o, generated, i + 1);
  }

  /** Secrets are redacted unless another way of storing them was asked for. */
  lemma SecretsMode(rs: seq<string>, o: Options, generated: string)
    requires Sound(o)
    ensures Says(rs, o, generated, "SECRETS_STORAGE_MODE", if o.secretsMode == "" then "redact" else o.secretsMode)
  {
    PostureSaid(rs, o, generated, 0);
  }

  lemma LettaSaid(rs: seq<string>, o: Options, generated: string, i: nat)
    requires Sound(o) && i < |Letta(o)|
    ensures Says(rs, o, generated, Letta(o)[i].key, Letta(o)[i].value)
  {
    var p := PlanOf(o);
    assert Settings(p, Csv(rs, p))[i] == p.first[i];
    RunValues(rs, o, generated, i);
  }

  lemma LettaLast(o: Options)
    ensures var ss := Letta(o);
      |ss| >= 1 && ss[|ss| - 1] == Setting("LETTA_REQUIRE_API_KEY", if o.external then "true" else "false")
  {
  }

  lemma LettaFirst(o: Options)
    requires o.external
    ensures o.lettaKey != "" ==> Letta(o)[0] == Setting("LETTA_API_KEY", o.lettaKey)
    ensures o.lettaUrl != "" ==> |Letta(o)| >= 2 && Letta(o)[|Letta(o)| - 2] == Setting("LETTA_URL", o.lettaUrl)
  {
  }

  /** The connection is what was asked for: a key is required exactly in external mode... */
  lemma LettaMode(rs: seq<string>, o: Options, generated: string)
    requires Sound(o)
    ensures Says(rs, o, generated, "LETTA_REQUIRE_API_KEY", if o.external then "true" else "false")
  {
    LettaLast(o);
    LettaSaid(rs, o, generated, |Letta(o)| - 1);
  }

  /** ...and there the given key and address are set. */
  lemma LettaConnection(rs: seq<string>, o: Options, generated: string)
    requires Sound(o) && o.external
    ensures o.lettaKey != "" ==> Says(rs, o, generated, "LETTA_API_KEY", o.lettaKey)
    ensures o.lettaUrl != "" ==> Says(rs, o, generated, "LETTA_URL", o.lettaUrl)
  {
    LettaFirst(o);
    LettaLast(o);
    if o.lettaKey != "" { LettaSaid(rs, o, generated, 0); }
    if o.lettaUrl != "" { LettaSaid(rs, o, generated, |Letta(o)| - 2); }
  }

  // ---------- The API key ----------

  lemma {:induction false} EmptyIsNotShadowed(rs: seq<string>, k: string)
    requires IsKey(k) && k != "" && Get(rs, k) == ""
    ensures !Shadowed(rs, k)
  {
    if rs != [] {
      AssignsMeaning(rs[|rs| - 1], k);
      if rs[|rs| - 1] == k { UntilUnique(k, IsEquals, |k|); }
      if Head(rs[|rs| - 1]) != k { EmptyIsNotShadowed(rs[..|rs| - 1], k); }
    }
  }

  lemma WithKeyGet(rs: seq<string>, key: string, wanted: bool, generated: string)
    requires IsKey(key) && key != ""
    ensures Get(WithKey(rs, key, wanted, generated), key) ==
      if Get(rs, key) == "" && wanted then generated else Get(rs, key)
  {
    if Get(rs, key) == "" {
      EmptyIsNotShadowed(rs, key);
      GetAfterPut(rs, key, generated);
    }
  }

  /** A key that was there is kept; where one is wanted there is one afterwards, the generated one only if there was
      none. */
  lemma ApiKeyKept(rs: seq<string>, p: Plan, generated: string)
    requires Workable(p)
    ensures var before, afterwards := Get(rs, p.key), Get(AfterRun(rs, p, generated), p.key);
      afterwards == if before == "" && p.wanted then generated else before
  {
    var ss := Settings(p, Csv(rs, p));
    ConfiguredIsSetAll(rs, p);
    SetAllOther(rs, ss, p.key);
    WithKeyGet(SetAll(rs, ss), p.key, p.wanted, generated);
  }

  /** Keys the run does not set keep their values. */
  lemma OtherKeysKept(rs: seq<string>, p: Plan, generated: string, k: string)
    requires Workable(p) && k != p.key && Fresh(Settings(p, Csv(rs, p)), k)
    ensures Get(AfterRun(rs, p, generated), k) == Get(rs, k)
  {
    var ss := Settings(p, Csv(rs, p));
    ConfiguredIsSetAll(rs, p);
    SetAllOther(rs, ss, k);
    GetOther(SetAll(rs, ss), p.key, generated, k);
  }

  lemma {:induction false} SetAllLastAssigned(rs: seq<string>, ss: seq<Setting>, k: string)
    requires Keyed(ss) && Fresh(ss, k)
    ensures LastAssigned(SetAll(rs, ss), k) == LastAssigned(rs, k)
  {
    if ss != [] {
      SetAllLastAssigned(rs, ss[..|ss| - 1], k);
      LastAssignedOther(SetAll(rs, ss[..|ss| - 1]), ss[|ss| - 1].key, ss[|ss| - 1].value, k);
    }
  }

  lemma FirstKeys(p: Plan, csv: string)
    requires Keyed(Settings(p, csv))
    ensures Keyed(p.first) && Fresh(p.first, p.profiles)
  {
    var ss := Settings(p, csv);
    assert ss[|p.first|] == Setting(p.profiles, csv);
    forall i | 0 <= i < |p.first| ensures IsKey(p.first[i].key) && p.first[i].key != p.profiles {
      assert ss[i] == p.first[i] && ss[i].key != ss[|p.first|].key;
    }
    forall i, j | 0 <= i < j < |p.first| ensures p.first[i].key != p.first[j].key {
      assert ss[i] == p.first[i] && ss[j] == p.first[j];
    }
    assert IsKey(ss[|p.first|].key);
  }

  lemma CsvFromFile(rs: seq<string>, p: Plan)
    requires Workable(p)
    ensures Csv(rs, p) == Profiles(LastAssigned(rs, p.profiles), p.external)
  {
    FirstKeys(p, "");
    SetAllLastAssigned(rs, p.first, p.profiles);
  }

  lemma ProfilesWritten(rs: seq<string>, p: Plan, generated: string)
    requires Workable(p)
    ensures LastAssigned(AfterRun(rs, p, generated), p.profiles) == Profiles(LastAssigned(rs, p.profiles), p.external)
  {
    CsvFromFile(rs, p);
    RunSettles(rs, p, generated);
    var s := Settings(p, Csv(rs, p))[|p.first|];
    assert s == Setting(p.profiles, Csv(rs, p));
    SettledValue(AfterRun(rs, p, generated), s.key, s.value);
  }

  /** The profiles written are those of the mode, chosen from the ones the file had. */
  lemma ProfilesSaid(rs: seq<string>, o: Options, generated: string)
    requires Sound(o)
    ensures Says(rs, o, generated, "COMPOSE_PROFILES", Profiles(LastAssigned(rs, "COMPOSE_PROFILES"), o.external))
  {
    PlanWorkable(o);
    ProfilesWritten(rs, PlanOf(o), generated);
  }

  /** A file that was not there holds just the assignment afterwards, and gave no value before. */
  lemma MissingFile(k: string, v: string)
    ensures Print(Put(Records(None), k, v)) == k + "=" + v + "\n" && Get(Records(None), k) == ""
  {
    assert Put([], k, v) == [Assignment(k, v)];
    assert [Assignment(k, v)][1..] == [];
  }

  /** The key of the orchestrator: one is generated exactly in secure mode when none can be read. */
  lemma OrchestratorKey(rs: seq<string>, o: Options, generated: string)
    requires Sound(o)
    ensures var key := "MEMMCP_ORCHESTRATOR_API_KEY";
      Get(AfterRun(rs, PlanOf(o), generated), key) ==
        if Get(rs, key) == "" && !o.insecure then generated else Get(rs, key)
  {
    PlanWorkable(o);
    ApiKeyKept(rs, PlanOf(o), generated);
  }

  // ---------- Running again ----------

  lemma PutOneLiners(rs: seq<string>, k: string, v: string)
    requires OneLiners(rs) && IsKey(k) && Never(v, IsNewline)
    ensures OneLiners(Put(rs, k, v))
  {
  }

  lemma {:induction false} SetAllOneLiners(rs: seq<string>, ss: seq<Setting>)
    requires OneLiners(rs) && Keyed(ss) && OneLineValues(ss)
    ensures OneLiners(SetAll(rs, ss))
  {
    if ss != [] {
      SetAllOneLiners(rs, ss[..|ss| - 1]);
      PutOneLiners(SetAll(rs, ss[..|ss| - 1]), ss[|ss| - 1].key, ss[|ss| - 1].value);
    }
  }

  lemma {:induction false} LastAssignedOneLine(rs: seq<string>, k: string)
    requires OneLiners(rs)
    ensures Never(LastAssigned(rs, k), IsNewline)
  {
    if rs != [] { LastAssignedOneLine(rs[..|rs| - 1], k); }
  }

  lemma SettingsFirst(p: Plan, csv: string)
    requires Keyed(Settings(p, csv))
    ensures Keyed(p.first) && IsKey(p.profiles) && Keyed(p.second)
  {
    var ss, n := Settings(p, csv), |p.first|;
    forall i | 0 <= i < |p.first| ensures IsKey(p.first[i].key) { assert ss[i] == p.first[i]; }
    forall i, j | 0 <= i < j < |p.first| ensures p.first[i].key != p.first[j].key {
      assert ss[i] == p.first[i] && ss[j] == p.first[j];
    }
    assert ss[n].key == p.profiles;
    forall i | 0 <= i < |p.second| ensures IsKey(p.second[i].key) { assert ss[n + 1 + i] == p.second[i]; }
    forall i, j | 0 <= i < j < |p.second| ensures p.second[i].key != p.second[j].key {
      assert ss[n + 1 + i] == p.second[i] && ss[n + 1 + j] == p.second[j];
    }
  }

  lemma CsvOneLine(rs: seq<string>, p: Plan)
    requires OneLiners(rs) && Workable(p)
    ensures Never(LastAssigned(SetAll(rs, p.first), p.profiles), IsNewline) && Never(Csv(rs, p), IsNewline)
  {
    SettingsFirst(p, "");
    SetAllOneLiners(rs, p.first);
    LastAssignedOneLine(SetAll(rs, p.first), p.profiles);
    NamedOfProfiles(LastAssigned(SetAll(rs, p.first), p.profiles), p.external);
  }

  lemma AllSettledParts(rs: seq<string>, a: seq<Setting>, b: seq<Setting>)
    requires AllSettled(rs, a + b)
    ensures AllSettled(rs, a) && AllSettled(rs, b)
  {
    forall i | 0 <= i < |a| ensures Settled(rs, a[i].key, a[i].value) { assert (a + b)[i] == a[i]; }
    forall i | 0 <= i < |b| ensures Settled(rs, b[i].key, b[i].value) { assert (a + b)[|a| + i] == b[i]; }
  }

  lemma ConfiguredIdle(t: seq<string>, p: Plan, csv: string)
    requires IsKey(p.profiles) && AllSettled(t, Settings(p, csv)) && Profiles(csv, p.external) == csv
    ensures Configured(t, p) == t
  {
    AllSettledParts(t, p.first + [Setting(p.profiles, csv)], p.second);
    AllSettledParts(t, p.first, [Setting(p.profiles, csv)]);
    SetAllIdle(t, p.first);
    assert Settled(t, [Setting(p.profiles, csv)][0].key, csv);
    SettledValue(t, p.profiles, csv);
    PutSettledIdle(t, p.profiles, csv);
    SetAllIdle(t, p.second);
  }

  /** A second run with the same options changes no line, whatever key it would have generated. */
  lemma RunIdempotent(rs: seq<string>, p: Plan, generated: string, again: string)
    requires OneLiners(rs) && Workable(p) && generated != ""
    ensures AfterRun(AfterRun(rs, p, generated), p, again) == AfterRun(rs, p, generated)
  {
    RunSettles(rs, p, generated);
    CsvOneLine(rs, p);
    ProfilesIdempotent(LastAssigned(SetAll(rs, p.first), p.profiles), p.external);
    SettingsFirst(p, "");
    ConfiguredIdle(AfterRun(rs, p, generated), p, Csv(rs, p));
    ApiKeyKept(rs, p, generated);
  }

  lemma SettingsOneLine(p: Plan, csv: string)
    requires Workable(p) && Never(csv, IsNewline)
    ensures Keyed(Settings(p, csv)) && OneLineValues(Settings(p, csv)) && IsKey(p.key)
  {
    assert Keyed(Settings(p, csv)) && Fresh(Settings(p, csv), p.key);
  }

  lemma RunOneLiners(rs: seq<string>, p: Plan, generated: string)
    requires OneLiners(rs) && Workable(p) && Never(generated, IsNewline)
    ensures OneLiners(AfterRun(rs, p, generated))
  {
    var ss := Settings(p, Csv(rs, p));
    CsvOneLine(rs, p);
    SettingsOneLine(p, Csv(rs, p));
    ConfiguredIsSetAll(rs, p);
    SetAllOneLiners(rs, ss);
    PutOneLiners(SetAll(rs, ss), p.key, generated);
  }

  /** The text of the file after one run of the script is also its text after two. */
  lemma RunTextIdempotent(file: Option<string>, o: Options, generated: string, again: string)
    requires Sound(o) && generated != "" && Never(generated, IsNewline)
    ensures var t := Some(Print(AfterRun(Records(file), PlanOf(o), generated)));
      Print(AfterRun(Records(t), PlanOf(o), again)) == t.value
  {
    PlanWorkable(o);
    RecordsOneLiners(file);
    RunIdempotent(Records(file), PlanOf(o), generated, again);
    RunOneLiners(Records(file), PlanOf(o), generated);
    RecordsOfPrint(AfterRun(Records(file), PlanOf(o), generated));
  }

  // ---------- The file ----------

  class EnvFile {
    var text: Option<string>

    constructor (text: Option<string>)
      ensures this.text == text
    {
      this.text := text;
    }

    /** Copies the file line by line, replacing assignments of the key, and adds one if there was none. */
    method SetKey(k: string, v: string)
      requires IsKey(k) && Never(v, IsNewline)
      modifies this
      ensures text == Some(Print(Put(old(Records(text)), k, v)))
      ensures Records(text) == Put(old(Records(text)), k, v)
    {
      var rs := Records(text);
      RecordsOneLiners(text);
      var out: seq<string>, updated, i := [], false, 0;
      while i < |rs|
        invariant i <= |rs| && |out| == i
        invariant forall j :: 0 <= j < i ==> out[j] == if Assigns(rs[j], k) then Assignment(k, v) else rs[j]
        invariant updated <==> exists j :: 0 <= j < i && Assigns(rs[j], k)
      {
        if Assigns(rs[i], k) {
          out := out + [Assignment(k, v)];
          updated := true;
        } else {
          out := out + [rs[i]];
        }
        i := i + 1;
      }
      assert out == Replaced(rs, k, v);
      assert !updated ==> Replaced(rs, k, v) == rs;
      if !updated {
        out := out + [Assignment(k, v)];
      }
      text := Some(Print(out));
      PutOneLiners(rs, k, v);
      RecordsOfPrint(out);
    }

    /** Keeps the last match while scanning from the top. */
    method GetKey(k: string) returns (value: string)
      ensures value == Get(Records(text), k)
    {
      var rs := Records(text);
      value := "";
      for i := 0 to |rs|
        invariant value == Get(rs[..i], k)
      {
        assert rs[..i + 1][..i] == rs[..i];
        if Head(rs[i]) == k { value := After(rs[i]); }
      }
      assert rs[..|rs|] == rs;
    }

    method LastAssignment(k: string) returns (value: string)
      ensures value == LastAssigned(Records(text), k)
    {
      var rs := Records(text);
      value := "";
      for i := 0 to |rs|
        invariant value == LastAssigned(rs[..i], k)
      {
        assert rs[..i + 1][..i] == rs[..i];
        if Assigns(rs[i], k) { value := After(rs[i]); }
      }
      assert rs[..|rs|] == rs;
    }

    method SetKeys(ss: seq<Setting>)
      requires Keyed(ss) && OneLineValues(ss)
      modifies this
      ensures Records(text) == SetAll(old(Records(text)), ss)
      ensures text == if ss == [] then old(text) else Some(Print(SetAll(old(Records(text)), ss)))
    {
      for i := 0 to |ss|
        invariant Records(text) == SetAll(old(Records(text)), ss[..i])
        invariant text == if i == 0 then old(text) else Some(Print(SetAll(old(Records(text)), ss[..i])))
      {
        assert ss[..i + 1][..i] == ss[..i];
        SetKey(ss[i].key, ss[i].value);
      }
      assert ss[..|ss|] == ss;
    }

    /** Reads the current profiles and writes the ones for this mode. */
    method ConfigureProfiles(profiles: string, external: bool) returns (csv: string)
      requires IsKey(profiles)
      modifies this
      ensures csv == Profiles(LastAssigned(old(Records(text)), profiles), external)
      ensures Records(text) == Put(old(Records(text)), profiles, csv)
      ensures text == Some(Print(Put(old(Records(text)), profiles, csv)))
    {
      RecordsOneLiners(text);
      LastAssignedOneLine(Records(text), profiles);
      var current := LastAssignment(profiles);
      var cleaned := CleanParts(Fields(if current == "" then DEFAULT_PROFILES else current, IsComma), external);
      csv := Join(cleaned, ',');
      NamedOfProfiles(current, external);
      SetKey(profiles, csv);
    }

    /** The whole script up to the smoke test. */
    method Run(p: Plan, generated: string) returns (csv: string)
      requires Workable(p) && Never(generated, IsNewline)
      modifies this
      ensures text == Some(Print(AfterRun(old(Records(text)), p, generated)))
      ensures Records(text) == AfterRun(old(Records(text)), p, generated)
      ensures csv == Csv(old(Records(text)), p)
    {
      SettingsFirst(p, "");
      SetKeys(p.first);
      csv := ConfigureProfiles(p.profiles, p.external);
      SetKeys(p.second);
      if p.wanted {
        var key := GetKey(p.key);
        if key == "" {
          SetKey(p.key, generated);
        }
      }
    }
  }

  /** `named` and the names still ahead are all the names. */
  ghost predicate Ahead(parts: seq<string>, i: nat, named: seq<string>) {
    i <= |parts| && named + Filter(Squeezed(parts[i..]), NonEmpty) == Filter(Squeezed(parts), NonEmpty)
  }

  lemma SqueezedFrom(parts: seq<string>, i: nat)
    requires i < |parts|
    ensures Squeezed(parts[i..]) == [Squeeze(parts[i])] + Squeezed(parts[i + 1..])
  {
    assert parts[i..][1..] == parts[i + 1..];
  }

  lemma FilterNext(named: seq<string>, x: string, xs: seq<string>)
    ensures named + Filter([x] + xs, NonEmpty) == (if x == "" then named else named + [x]) + Filter(xs, NonEmpty)
  {
    assert ([x] + xs)[1..] == xs;
  }

  lemma NextNamed(parts: seq<string>, i: nat, named: seq<string>)
    requires i < |parts| && Ahead(parts, i, named)
    ensures Ahead(parts, i + 1, if Squeeze(parts[i]) == "" then named else named + [Squeeze(parts[i])])
  {
    SqueezedFrom(parts, i);
    FilterNext(named, Squeeze(parts[i]), Squeezed(parts[i + 1..]));
  }

  lemma AllNamed(parts: seq<string>, named: seq<string>)
    requires Ahead(parts, |parts|, named)
    ensures named == Filter(Squeezed(parts), NonEmpty)
  {
    assert parts[|parts|..] == [];
  }

  lemma FilterOne(named: seq<string>, part: string)
    ensures Filter(named + [part], NotLlm) ==
      if NotLlm(part) then Filter(named, NotLlm) + [part] else Filter(named, NotLlm)
  {
    FilterAppend(named, [part], NotLlm);
    assert Filter([part], NotLlm) == if NotLlm(part) then [part] else [] by { assert [part][1..] == []; }
  }

  /** The cleaning loop over the comma-separated names. */
  method CleanParts(parts: seq<string>, external: bool) returns (cleaned: seq<string>)
    ensures cleaned == Chosen(Filter(Squeezed(parts), NonEmpty), external)
  {
    cleaned := [];
    var hasLlm, i := false, 0;
    ghost var named: seq<string> := [];
    while i < |parts|
      invariant Ahead(parts, i, named)
      invariant hasLlm <==> "llm" in named
      invariant cleaned == if external then Filter(named, NotLlm) else named
    {
      var part := Squeeze(parts[i]);
      NextNamed(parts, i, named);
      if part != "" {
        FilterOne(named, part);
        named := named + [part];
        if part == "llm" { hasLlm := true; }
        if !(part == "llm" && external) { cleaned := cleaned + [part]; }
      }
      i := i + 1;
    }
    AllNamed(parts, named);
    if !external && !hasLlm { cleaned := cleaned + ["llm"]; }
    if |cleaned| == 0 { cleaned := ["core"]; }
  }
}
