/** Where an image's tags are listed, and the newest stable tag of a paged listing. */
module Registry {
  import opened Text
  import opened Order
  import opened Versions

  // ---------- Sources ----------

  datatype Source = DockerHub(repo: string) | GithubReleases(repo: string) | Unsupported

  predicate IsSlash(c: char) { c == '/' }

  predicate IsRegistryHost(component: string) {
    '.' in component || ':' in component || component == "localhost"
  }

  function NormalizeName(name: string): string {
    if "docker.io/" <= name then name
    else if IsRegistryHost(name[..Until(name, IsSlash)]) then name
    else if '/' in name then "docker.io/" + name
    else "docker.io/" + ("library/" + name)
  }

  function ResolveSource(name: string): Source {
    var full := NormalizeName(name);
    if full == "ghcr.io/tbxark/mcp-proxy" then GithubReleases("TBXark/mcp-proxy")
    else if "cgr.dev/" <= full || "ghcr.io/promptfoo/" <= full then Unsupported
    else if "docker.io/" <= full then DockerHub(full[10..])
    else Unsupported
  }

  lemma HubSource(name: string, repo: string)
    requires NormalizeName(name) == "docker.io/" + repo
    ensures ResolveSource(name) == DockerHub(repo)
  {
    var full := "docker.io/" + repo;
    assert full[0] == 'd' && full[1] == 'o' && full[..10] == "docker.io/" && full[10..] == repo;
  }

  lemma Registered(repo: string)
    ensures NormalizeName("docker.io/" + repo) == "docker.io/" + repo
  {
  }

  /** Nothing in front of the first slash is a registry. */
  lemma Unregistered(owner: string, name: string)
    requires owner <= name && '/' !in owner && '.' !in owner && (owner == name || name[|owner|] == '/')
    ensures !("docker.io/" <= name)
  {
    var d := "docker.io/";
    assert d[0] != '/' && d[1] != '/' && d[2] != '/' && d[3] != '/' && d[4] != '/' && d[5] != '/' && d[6] == '.';
    assert forall i :: 0 <= i < |owner| ==> name[i] == owner[i] && owner[i] in owner;
  }

  /** A Docker Hub image means the same with and without the registry in front. */
  lemma SpelledOutHub(owner: string, name: string)
    requires '/' !in owner && !IsRegistryHost(owner) && owner + "/" <= name
    ensures ResolveSource(name) == ResolveSource("docker.io/" + name) == DockerHub(name)
  {
    assert name[|owner|] == (owner + "/")[|owner|] && name[..|owner|] == owner;
    UntilUnique(name, IsSlash, |owner|);
    Unregistered(owner, name);
    HubSource(name, name);
    Registered(name);
    HubSource("docker.io/" + name, name);
  }

  lemma ShortName(name: string)
    requires '/' !in name && !IsRegistryHost(name)
    ensures NormalizeName(name) == "docker.io/" + ("library/" + name)
  {
    UntilUnique(name, IsSlash, |name|);
    assert name[..|name|] == name;
    Unregistered(name, name);
  }

  /** An official image means the same with and without `library/`. */
  lemma SpelledOut(name: string)
    requires '/' !in name && !IsRegistryHost(name)
    ensures ResolveSource(name) == ResolveSource("library/" + name) == DockerHub("library/" + name)
  {
    ShortName(name);
    HubSource(name, "library/" + name);
    assert "library" + "/" == "library/" && '.' !in "library" && ':' !in "library";
    SpelledOutHub("library", "library/" + name);
  }

  /** An image of another registry has no source; a registry is a first component with a dot or a colon, or the local
      host. The one exception publishes releases on GitHub. */
  lemma OtherRegistry(host: string, name: string)
    requires '/' !in host && ('.' in host || ':' in host || host == "localhost") && host != "docker.io"
    requires name == host || host + "/" <= name
    requires name != "ghcr.io/tbxark/mcp-proxy"
    ensures ResolveSource(name) == Unsupported
  {
    if name != host { assert name[|host|] == (host + "/")[|host|] && name[..|host|] == host; }
    assert name[..|host|] == host;
    assert forall i :: 0 <= i < |host| ==> name[i] == host[i] && host[i] in host;
    UntilUnique(name, IsSlash, |host|);
    if "docker.io/" <= name { UntilUnique(name, IsSlash, 9); }
  }

  lemma HostedName(host: string, rest: string)
    requires '/' !in host && IsRegistryHost(host)
    ensures NormalizeName(host + "/" + rest) == host + "/" + rest
  {
    var name := host + "/" + rest;
    assert name[|host|] == '/' && name[..|host|] == host;
    assert forall i :: 0 <= i < |host| ==> name[i] == host[i] && host[i] in host;
    UntilUnique(name, IsSlash, |host|);
  }

  lemma MirroredRelease()
    ensures ResolveSource("ghcr.io/tbxark/mcp-proxy") == GithubReleases("TBXark/mcp-proxy")
  {
    assert "ghcr.io"[4] == '.';
    HostedName("ghcr.io", "tbxark/mcp-proxy");
    assert "ghcr.io" + "/" + "tbxark/mcp-proxy" == "ghcr.io/tbxark/mcp-proxy";
  }

  // ---------- Listings ----------

  /** A page of Docker Hub tags; asking for a page may fail. */
  datatype HubPage = HubPage(names: seq<string>, next: bool)

  datatype GithubRow = GithubRow(tag: string, draft: bool, prerelease: bool)
  datatype GithubPage = NotAList | Releases(rows: seq<GithubRow>)

  function Stripped(names: seq<string>, sp: char -> bool): (r: seq<string>)
    ensures |r| == |names|
  {
    seq(|names|, i requires 0 <= i < |names| => Strip(names[i], sp))
  }

  /** All names on the pages read from `page` on: up to page 6, ending early at a page without a successor. */
  function HubTags(pages: nat -> Option<HubPage>, page: nat, sp: char -> bool): Option<seq<string>>
    decreases 7 - page
  {
    if page > 6 then Some([])
    else if pages(page).None? then None
    else
      var names := Stripped(pages(page).value.names, sp);
      if !pages(page).value.next then Some(names)
      else
        var rest := HubTags(pages, page + 1, sp);
        if rest.None? then None else Some(names + rest.value)
  }

  function Published(rows: seq<GithubRow>, sp: char -> bool): seq<string> {
    if rows == [] then []
    else
      var rest := Published(rows[..|rows| - 1], sp);
      var row := rows[|rows| - 1];
      if row.draft || row.prerelease then rest else rest + [Strip(row.tag, sp)]
  }

  /** All published tags on the pages read from `page` on: up to page 4, ending early at a short page. */
  function GithubTags(pages: nat -> Option<GithubPage>, page: nat, sp: char -> bool): Option<seq<string>>
    decreases 5 - page
  {
    if page > 4 then Some([])
    else match pages(page)
      case None => None
      case Some(NotAList) => Some([])
      case Some(Releases(rows)) =>
        if |rows| < 100 then Some(Published(rows, sp))
        else
          var rest := GithubTags(pages, page + 1, sp);
          if rest.None? then None else Some(Published(rows, sp) + rest.value)
  }

  /** The best release once the remaining tags are seen; a failed page loses everything. */
  function Finish(best: Option<Release>, rest: Option<seq<string>>): Option<Release> {
    if rest.None? then None else Best(best, rest.value)
  }

  method BestOnPage(best: Option<Release>, tags: seq<string>) returns (r: Option<Release>)
    ensures r == Best(best, tags)
  {
    r := best;
    for i := 0 to |tags|
      invariant r == Best(best, tags[..i])
    {
      BestNext(best, tags, i);
      var v := StableVersion(tags[i]);
      if v.Some? && (r.None? || Less(r.value.version, v.value)) {
        r := Some(Release(tags[i], v.value));
      }
    }
    assert tags[..|tags|] == tags;
  }

  /** Page through Docker Hub and keep the newest stable tag; a failed request gives nothing. */
  method FetchLatestFromDockerhub(pages: nat -> Option<HubPage>, sp: char -> bool) returns (r: Option<Release>)
    ensures r == Finish(None, HubTags(pages, 1, sp))
  {
    var page := 1;
    r := None;
    while page <= 6
      invariant 1 <= page <= 7
      invariant Finish(r, HubTags(pages, page, sp)) == Finish(None, HubTags(pages, 1, sp))
    {
      var data := pages(page);
      if data.None? {
        return None;
      }
      var names := Stripped(data.value.names, sp);
      ghost var rest := HubTags(pages, page + 1, sp);
      if rest.Some? { BestAppend(r, names, rest.value); }
      r := BestOnPage(r, names);
      if !data.value.next {
        return;
      }
      page := page + 1;
    }
  }

  method FetchLatestFromGithub(pages: nat -> Option<GithubPage>, sp: char -> bool) returns (r: Option<Release>)
    ensures r == Finish(None, GithubTags(pages, 1, sp))
  {
    var page := 1;
    r := None;
    while page <= 4
      invariant 1 <= page <= 5
      invariant Finish(r, GithubTags(pages, page, sp)) == Finish(None, GithubTags(pages, 1, sp))
    {
      match pages(page) {
        case None => return None;
        case Some(NotAList) => return;
        case Some(Releases(rows)) =>
          var tags := Published(rows, sp);
          ghost var rest := GithubTags(pages, page + 1, sp);
          if rest.Some? { BestAppend(r, tags, rest.value); }
          r := BestOnPage(r, tags);
          if |rows| < 100 {
            return;
          }
          page := page + 1;
      }
    }
  }

  /** The newest stable tag is the first greatest of everything listed, or nothing when nothing is stable. */
  lemma FinishMeaning(rest: Option<seq<string>>)
    ensures var r := Finish(None, rest);
      && (r.Some? ==> rest.Some? && exists k: nat :: FirstGreatest(rest.value, r.value, k))
      && (r.None? ==> rest.None? || NoneStable(rest.value))
  {
    if rest.Some? { BestIsFirstGreatest(rest.value); }
  }

  // ---------- What is listed ----------

  /** Page `p` of the six is asked for: every page before it is there and has a successor. */
  ghost predicate HubAsked(pages: nat -> Option<HubPage>, from: nat, p: nat) {
    from <= p <= 6 && forall q :: from <= q < p ==> pages(q).Some? && pages(q).value.next
  }

  ghost predicate OnHubPage(pages: nat -> Option<HubPage>, p: nat, tag: string, sp: char -> bool) {
    pages(p).Some? && exists name <- pages(p).value.names :: tag == Strip(name, sp)
  }

  lemma StrippedHolds(names: seq<string>, tag: string, sp: char -> bool)
    ensures tag in Stripped(names, sp) <==> exists name <- names :: tag == Strip(name, sp)
  {
    var r := Stripped(names, sp);
    if tag in r {
      var i :| 0 <= i < |r| && r[i] == tag;
      assert names[i] in names;
    }
    if name :| name in names && tag == Strip(name, sp) {
      var i :| 0 <= i < |names| && names[i] == name;
      assert r[i] == tag;
    }
  }

  lemma {:induction false} HubTagsMeaning(pages: nat -> Option<HubPage>, from: nat, sp: char -> bool, tag: string)
    requires from <= 7
    ensures var tags := HubTags(pages, from, sp);
      && (tags.None? <==> exists p: nat :: HubAsked(pages, from, p) && pages(p).None?)
      && (tags.Some? ==>
            (tag in tags.value <==> exists p: nat :: HubAsked(pages, from, p) && OnHubPage(pages, p, tag, sp)))
    decreases 7 - from
  {
    if from <= 6 {
      assert HubAsked(pages, from, from);
      if pages(from).Some? {
        StrippedHolds(pages(from).value.names, tag, sp);
        HubTagsMeaning(pages, from + 1, sp, tag);
        forall p: nat ensures HubAsked(pages, from, p) <==>
          p == from || (pages(from).value.next && HubAsked(pages, from + 1, p))
        {
        }
      }
    }
  }

  /** Page `p` of the four is asked for: every page before it is a full list. */
  ghost predicate GithubAsked(pages: nat -> Option<GithubPage>, from: nat, p: nat) {
    from <= p <= 4 && forall q :: from <= q < p ==> FullPage(pages, q)
  }

  ghost predicate FullPage(pages: nat -> Option<GithubPage>, q: nat) {
    pages(q).Some? && pages(q).value.Releases? && |pages(q).value.rows| >= 100
  }

  ghost predicate OnGithubPage(pages: nat -> Option<GithubPage>, p: nat, tag: string, sp: char -> bool) {
    pages(p).Some? && pages(p).value.Releases? && IsPublished(pages(p).value.rows, tag, sp)
  }

  /** Drafts and prereleases do not count. */
  ghost predicate IsPublished(rows: seq<GithubRow>, tag: string, sp: char -> bool) {
    exists row <- rows :: !row.draft && !row.prerelease && tag == Strip(row.tag, sp)
  }

  lemma {:induction false} PublishedHolds(rows: seq<GithubRow>, tag: string, sp: char -> bool)
    ensures tag in Published(rows, sp) <==> IsPublished(rows, tag, sp)
  {
    if rows != [] {
      PublishedHolds(rows[..|rows| - 1], tag, sp);
      assert rows == rows[..|rows| - 1] + [rows[|rows| - 1]];
    }
  }

  lemma {:induction false} GithubTagsMeaning(pages: nat -> Option<GithubPage>, from: nat, sp: char -> bool, tag: string)
    requires from <= 5
    ensures var tags := GithubTags(pages, from, sp);
      && (tags.None? <==> exists p: nat :: GithubAsked(pages, from, p) && pages(p).None?)
      && (tags.Some? ==>
            (tag in tags.value <==> exists p: nat :: GithubAsked(pages, from, p) && OnGithubPage(pages, p, tag, sp)))
    decreases 5 - from
  {
    if from <= 4 {
      assert GithubAsked(pages, from, from);
      if pages(from).Some? {
        if pages(from).value.Releases? { PublishedHolds(pages(from).value.rows, tag, sp); }
        GithubTagsMeaning(pages, from + 1, sp, tag);
        forall p: nat ensures GithubAsked(pages, from, p) <==>
          p == from || (FullPage(pages, from) && GithubAsked(pages, from + 1, p))
        {
        }
      }
    }
  }

  // ---------- The lookup ----------

  /** What the registries answer: the pages of each repository. */
  datatype Registries = Registries(hub: string -> (nat -> Option<HubPage>),
                                   github: string -> (nat -> Option<GithubPage>))

  /** Everything a source lists, or None when it has no listing or asking for it fails. */
  function Listing(source: Source, reg: Registries, sp: char -> bool): Option<seq<string>> {
    match source
    case DockerHub(repo) => if repo == "" then None else HubTags(reg.hub(repo), 1, sp)
    case GithubReleases(repo) => if repo == "" then None else GithubTags(reg.github(repo), 1, sp)
    case Unsupported => None
  }

  function Latest(reg: Registries, sp: char -> bool): Source -> Option<Release> {
    source => Finish(None, Listing(source, reg, sp))
  }

  method FetchLatestStable(source: Source, reg: Registries, sp: char -> bool) returns (r: Option<Release>)
    ensures r == Latest(reg, sp)(source)
  {
    match source {
      case DockerHub(repo) =>
        if repo == "" { return None; }
        r := FetchLatestFromDockerhub(reg.hub(repo), sp);
      case GithubReleases(repo) =>
        if repo == "" { return None; }
        r := FetchLatestFromGithub(reg.github(repo), sp);
      case Unsupported =>
        r := None;
    }
  }

  /** Without a repository there is nothing to look up. */
  lemma NoRepository(reg: Registries, sp: char -> bool)
    ensures Latest(reg, sp)(DockerHub("")) == None && Latest(reg, sp)(GithubReleases("")) == None
    ensures Latest(reg, sp)(Unsupported) == None
  {
  }

  /** What a lookup gives is a stable tag with its own version, listed by the source, and no listed stable tag is
      newer. */
  lemma LatestMeaning(source: Source, reg: Registries, sp: char -> bool)
    ensures var r, tags := Latest(reg, sp)(source), Listing(source, reg, sp);
      && (r.Some? ==>
            && tags.Some? && r.value.tag in tags.value && StableVersion(r.value.tag) == Some(r.value.version)
            && forall t <- tags.value :: StableVersion(t).Some? ==> !Less(r.value.version, StableVersion(t).value))
      && (r.None? ==> tags.None? || forall t <- tags.value :: StableVersion(t).None?)
  {
    FinishMeaning(Listing(source, reg, sp));
  }
}
