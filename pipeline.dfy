/** The orchestration in `main`: client set-up from the credentials, the scan
    of the content tree that queues eligible pages, and the per-page
    processing that checks the URL, posts to each requested platform and
    marks the page only when every post succeeded. The network, the parsers
    and the walk of the directory tree are given as inputs. */
module Pipeline {
  import opened PyStr
  import opened FrontMatter
  import opened UrlResolver
  import opened Excerpt
  import opened WriteBack

  // --------------------------------------------------------------- clients

  datatype Flags = Flags(dryRun: bool, force: bool)

  /** The environment variables the clients are configured from. */
  datatype Credentials = Credentials(
    blueskyHandle: Option<string>, blueskyPassword: Option<string>,
    mastodonToken: Option<string>, mastodonApiBase: Option<string>)

  /** A variable that is set to a non-empty value. */
  predicate Configured(v: Option<string>) {
    v.Some? && v.value != ""
  }

  predicate HasBlueskyCredentials(c: Credentials) {
    Configured(c.blueskyHandle) && Configured(c.blueskyPassword)
  }

  predicate HasMastodonCredentials(c: Credentials) {
    Configured(c.mastodonToken) && Configured(c.mastodonApiBase)
  }

  datatype Platform = Bluesky | Mastodon

  /** Which client objects exist. */
  datatype Clients = Clients(bluesky: bool, mastodon: bool) {
    predicate Has(p: Platform) {
      match p
      case Bluesky => bluesky
      case Mastodon => mastodon
    }
  }

  /** The client set-up. In a dry run no client is made. Otherwise the run
      exits (None) when neither platform has its credentials; a client exists
      for each platform whose credentials are set and whose client object
      could be constructed (`blueskyMade`, `mastodonMade`). A failed Bluesky
      login does not remove the client object, which was assigned before
      `login` was called. */
  function InitClients(flags: Flags, creds: Credentials, blueskyMade: bool, mastodonMade: bool): (r: Option<Clients>)
    ensures r.None? <==> !flags.dryRun && !HasBlueskyCredentials(creds) && !HasMastodonCredentials(creds)
    ensures flags.dryRun ==> r == Some(Clients(false, false))
    ensures r.Some? ==> (r.value.bluesky <==> !flags.dryRun && HasBlueskyCredentials(creds) && blueskyMade)
    ensures r.Some? ==> (r.value.mastodon <==> !flags.dryRun && HasMastodonCredentials(creds) && mastodonMade)
  {
    if flags.dryRun then Some(Clients(false, false))
    else
      var hasBluesky := HasBlueskyCredentials(creds);
      var hasMastodon := HasMastodonCredentials(creds);
      if !hasBluesky && !hasMastodon then None
      else Some(Clients(hasBluesky && blueskyMade, hasMastodon && mastodonMade))
  }

  // ------------------------------------------------------------------ scan

  /** One directory of the walk: its path and the names of its files. */
  datatype DirListing = DirListing(root: string, files: seq<string>)

  /** A queued page: its parsed front matter and its path. */
  datatype Item = Item(header: Header, path: string)

  /** `os.path.join(root, name)` for two components on a POSIX system: an
      absolute name replaces the root; otherwise one `/` separates them,
      unless the root is empty or already ends with one. */
  function PathJoin(root: string, name: string): (r: string)
    ensures EndsWith(r, name)
    ensures StartsWith(name, "/") ==> r == name
    ensures !StartsWith(name, "/") && (root == "" || EndsWith(root, "/")) ==> r == root + name
    ensures !StartsWith(name, "/") && root != "" && !EndsWith(root, "/") ==> r == root + "/" + name
    ensures '/' !in name ==> BaseName(r) == name
  {
    if StartsWith(name, "/") then name
    else if root == "" then
      assert root + name == name;
      name
    else if EndsWith(root, "/") then
      assert root + name == root[..|root| - 1] + "/" + name;
      assert '/' !in name ==> BaseName(root + name) == name by {
        if '/' !in name { AfterLastSlash(root[..|root| - 1], name); }
      }
      root + name
    else
      assert '/' !in name ==> BaseName(root + "/" + name) == name by {
        if '/' !in name { AfterLastSlash(root, name); }
      }
      root + "/" + name
  }

  /** The scan's test on a parsed header: a non-empty mapping with the key
      `syndicate_to`, a falsy `syndicated` and a truthy `microblog_content`. */
  function Queued(fm: Option<Header>): (b: bool)
    ensures b ==> fm.Some? && "microblog_content" in fm.value && Truthy(fm.value["microblog_content"])
    ensures b ==> "syndicated" !in fm.value || !Truthy(fm.value["syndicated"])
  {
    fm.Some? && fm.value != map[] && "syndicate_to" in fm.value &&
    !Truthy(Get(fm.value, "syndicated", Bool(false))) &&
    Truthy(Get(fm.value, "microblog_content", Null))
  }

  /** The scan of one file: a Markdown file that can be read and whose header
      passes the test is queued with its header and path. */
  function ScanFile(disk: Disk, parsers: Parsers, root: string, name: string): (r: Option<Item>)
    ensures r.Some? <==> (EndsWith(name, ".md") && PathJoin(root, name) in disk &&
      Queued(ParseFrontMatter(disk[PathJoin(root, name)], parsers)))
    ensures r.Some? ==> (r.value.path == PathJoin(root, name) &&
      ParseFrontMatter(disk[r.value.path], parsers) == Some(r.value.header))
  {
    if !EndsWith(name, ".md") then None
    else
      var path := PathJoin(root, name);
      if path !in disk then None
      else
        var fm := ParseFrontMatter(disk[path], parsers);
        if Queued(fm) then Some(Item(fm.value, path)) else None
  }

  /** The queued items among a sequence of per-file verdicts, in order. */
  function Flatten(verdicts: seq<Option<Item>>): seq<Item> {
    if verdicts == [] then []
    else
      var last := verdicts[|verdicts| - 1];
      Flatten(verdicts[..|verdicts| - 1]) + (if last.Some? then [last.value] else [])
  }

  /** The scan's verdict on each file of one directory. */
  function FileVerdicts(disk: Disk, parsers: Parsers, root: string, files: seq<string>): (r: seq<Option<Item>>)
    ensures |r| == |files|
    ensures forall f :: 0 <= f < |files| ==> r[f] == ScanFile(disk, parsers, root, files[f])
  {
    seq(|files|, f requires 0 <= f < |files| => ScanFile(disk, parsers, root, files[f]))
  }

  /** The items queued from the first `n` files of one directory. */
  function ScanFiles(disk: Disk, parsers: Parsers, root: string, files: seq<string>, n: nat): seq<Item>
    requires n <= |files|
  {
    Flatten(FileVerdicts(disk, parsers, root, files)[..n])
  }

  /** The manifest built from the first `n` directories of the walk. */
  function ScanWalk(disk: Disk, parsers: Parsers, walk: seq<DirListing>, n: nat): seq<Item>
    requires n <= |walk|
  {
    if n == 0 then []
    else ScanWalk(disk, parsers, walk, n - 1) + ScanFiles(disk, parsers, walk[n - 1].root, walk[n - 1].files, |walk[n - 1].files|)
  }

  /** The scanning loops of `main`, appending to the manifest. */
  method Scan(disk: Disk, parsers: Parsers, walk: seq<DirListing>) returns (manifest: seq<Item>)
    ensures manifest == ScanWalk(disk, parsers, walk, |walk|)
  {
    manifest := [];
    for d := 0 to |walk|
      invariant manifest == ScanWalk(disk, parsers, walk, d)
    {
      var root, files := walk[d].root, walk[d].files;
      ghost var before := manifest;
      ghost var verdicts := FileVerdicts(disk, parsers, root, files);
      for f := 0 to |files|
        invariant manifest == before + Flatten(verdicts[..f])
      {
        var item := ScanFile(disk, parsers, root, files[f]);
        FlattenStep(before, verdicts, f);
        if item.Some? {
          manifest := manifest + [item.value];
        }
      }
      assert verdicts[..|files|] == verdicts;
    }
  }

  /** The queued items of one more file. */
  lemma FlattenStep(before: seq<Item>, verdicts: seq<Option<Item>>, f: nat)
    requires f < |verdicts|
    ensures verdicts[f].None? ==> before + Flatten(verdicts[..f + 1]) == before + Flatten(verdicts[..f])
    ensures verdicts[f].Some? ==> before + Flatten(verdicts[..f + 1]) == before + Flatten(verdicts[..f]) + [verdicts[f].value]
  {
    assert verdicts[..f + 1][..f] == verdicts[..f];
  }

  /** A page is in the manifest exactly when the scan of one directory of
      the walk queues it. */
  lemma {:induction false} ScanWalkMembers(disk: Disk, parsers: Parsers, walk: seq<DirListing>, n: nat, it: Item)
    requires n <= |walk|
    ensures it in ScanWalk(disk, parsers, walk, n) <==>
      exists d :: 0 <= d < n && it in ScanFiles(disk, parsers, walk[d].root, walk[d].files, |walk[d].files|)
  {
    if n > 0 {
      ScanWalkMembers(disk, parsers, walk, n - 1, it);
    }
  }

  /** An item is among the queued ones exactly when some verdict queues it. */
  lemma {:induction false} FlattenMembers(verdicts: seq<Option<Item>>, it: Item)
    ensures it in Flatten(verdicts) <==> exists k :: 0 <= k < |verdicts| && verdicts[k] == Some(it)
    decreases |verdicts|
  {
    if verdicts != [] {
      var init := verdicts[..|verdicts| - 1];
      FlattenMembers(init, it);
      assert forall k :: 0 <= k < |init| ==> init[k] == verdicts[k];
    }
  }

  /** ... and the scan of a directory queues it exactly when one of its
      files does. */
  lemma ScanFilesMembers(disk: Disk, parsers: Parsers, root: string, files: seq<string>, it: Item)
    ensures it in ScanFiles(disk, parsers, root, files, |files|) <==>
      exists f :: 0 <= f < |files| && ScanFile(disk, parsers, root, files[f]) == Some(it)
  {
    var verdicts := FileVerdicts(disk, parsers, root, files);
    assert verdicts[..|files|] == verdicts;
    FlattenMembers(verdicts, it);
  }

  /** Every queued page is a readable Markdown file whose header passes the
      test. */
  lemma ManifestQueued(disk: Disk, parsers: Parsers, walk: seq<DirListing>, it: Item)
    requires it in ScanWalk(disk, parsers, walk, |walk|)
    ensures EndsWith(it.path, ".md") && it.path in disk
    ensures Queued(ParseFrontMatter(disk[it.path], parsers))
    ensures ParseFrontMatter(disk[it.path], parsers) == Some(it.header)
  {
    ScanWalkMembers(disk, parsers, walk, |walk|, it);
    var d :| 0 <= d < |walk| && it in ScanFiles(disk, parsers, walk[d].root, walk[d].files, |walk[d].files|);
    ScanFilesMembers(disk, parsers, walk[d].root, walk[d].files, it);
    var f :| 0 <= f < |walk[d].files| && ScanFile(disk, parsers, walk[d].root, walk[d].files[f]) == Some(it);
    EndsWithTrans(it.path, walk[d].files[f], ".md");
  }

  lemma EndsWithTrans(a: string, b: string, c: string)
    requires EndsWith(a, b) && EndsWith(b, c)
    ensures EndsWith(a, c)
  {
    assert a[|a| - |c|..] == b[|b| - |c|..];
  }

  // ------------------------------------------------------------ processing

  /** The outside world a run talks to: whether a URL answers 200, and
      whether a post to each platform goes through. */
  datatype Env = Env(reachable: string -> bool, postBluesky: BlueskyPost -> bool, postMastodon: string -> bool)

  /** Which `truncate_text` the posting functions call: the script's own,
      in a module whose text-valued globals are given, or the one reading
      its `suffix` parameter. */
  datatype Truncation = AsWritten(globals: map<string, string>) | Repaired {
    /** The script's own function in the script's own module, which binds
        no `forced_suffix`. */
    predicate Script() {
      AsWritten? && globals.Keys <= ModuleNames
    }
  }

  /** Everything fixed for a run. */
  datatype Context = Context(baseUrl: Option<string>, flags: Flags, clients: Clients, env: Env, truncation: Truncation)

  /** One entry of the per-page results: whether a post was sent, and the
      result recorded for the platform. */
  datatype Attempt = Attempt(platform: Platform, sent: bool, ok: bool)

  datatype Verdict = Unreachable | Marked | WouldMark | PartialFailure | NoTargets

  /** What happened to one page. */
  datatype Report = Report(path: string, url: string, attempts: seq<Attempt>, verdict: Verdict)

  /** A front-matter value used as text; anything else has no `len`. */
  function TextOf(v: Value): (r: Result<string>)
    ensures r.Ok? <==> v.Str?
    ensures r.Ok? ==> r.value == v.s
    ensures r.Err? ==> r.error == TypeError
  {
    if v.Str? then Ok(v.s) else Err(TypeError)
  }

  /** `slug = frontmatter.get("slug")` fed to the URL builder: a falsy slug
      is no slug; a truthy one that is not a string raises, at `dirs[-1]` for
      a bundle with no directory and at the join otherwise. */
  function UrlFor(baseUrl: Option<string>, filepath: string, fm: Header): (r: Result<string>)
    ensures !Truthy(Get(fm, "slug", Null)) ==> r == GetPostUrl(baseUrl, filepath, None)
    ensures Get(fm, "slug", Null).Str? ==> r == GetPostUrl(baseUrl, filepath, Some(Get(fm, "slug", Null).s))
    ensures Truthy(Get(fm, "slug", Null)) && !Get(fm, "slug", Null).Str? ==> r.Err?
  {
    var slug := Get(fm, "slug", Null);
    if !Truthy(slug) then GetPostUrl(baseUrl, filepath, None)
    else if slug.Str? then GetPostUrl(baseUrl, filepath, Some(slug.s))
    else if IsLeafBundle(BaseName(filepath)) && Dirs(PathParts(filepath)) == [] then Err(IndexError)
    else Err(TypeError)
  }

  /** The character budget the excerpt is cut to on each platform. */
  function ExcerptLimit(p: Platform, url: string): (r: int)
    ensures r <= MastodonCharLimit
    ensures p == Mastodon ==> r + 2 + |url| == MastodonCharLimit
  {
    match p
    case Bluesky => BlueskyCharLimit
    case Mastodon => MastodonCharLimit - |url| - 2
  }

  /** The excerpt both posting functions build with `truncate_text`, with
      no suffix: the script's own raises NameError. */
  function ExcerptText(p: Platform, title: string, content: string, url: string, t: Truncation): (r: Result<string>)
    ensures t.Script() ==> r == Err(NameError)
    ensures t == Repaired ==> r == Ok(TruncateText(title, content, ExcerptLimit(p, url), ""))
  {
    match t
    case AsWritten(globals) =>
      var r := TruncateTextAsWritten(title, content, ExcerptLimit(p, url), "", globals);
      assert t.Script() ==> r == Err(NameError) by {
        if t.Script() { ForcedSuffixRaises(title, content, ExcerptLimit(p, url), "", globals); }
      }
      r
    case Repaired => Ok(TruncateText(title, content, ExcerptLimit(p, url), ""))
  }

  /** `syndicate_to_bluesky` / `syndicate_to_mastodon` past their client
      check: the excerpt is built before the `try`, so an error there
      escapes; the post's own failure is caught and answers false. */
  function Publish(p: Platform, title: string, content: string, url: string, ctx: Context): (r: Result<bool>)
    ensures ctx.truncation.Script() ==> r == Err(NameError)
    ensures ctx.truncation == Repaired && p == Bluesky ==> r == Ok(ctx.env.postBluesky(BlueskyPostFor(title, content, url)))
    ensures ctx.truncation == Repaired && p == Mastodon ==> r == Ok(ctx.env.postMastodon(MastodonStatus(title, content, url)))
  {
    var text :- ExcerptText(p, title, content, url, ctx.truncation);
    match p
    case Bluesky => Ok(ctx.env.postBluesky(BlueskyPost(text, title, Prefix(content, CardDescriptionLimit), url)))
    case Mastodon => Ok(ctx.env.postMastodon(text + "\n\n" + url))
  }

  /** The result for one requested platform: true in a dry run, false with
      no client, otherwise the outcome of the post. */
  function Try(p: Platform, fm: Header, url: string, ctx: Context): (r: Result<Attempt>)
    ensures r.Ok? ==> r.value.platform == p
    ensures ctx.flags.dryRun ==> r == Ok(Attempt(p, false, true))
    ensures !ctx.flags.dryRun && !ctx.clients.Has(p) ==> r == Ok(Attempt(p, false, false))
    ensures r.Ok? && r.value.sent <==> !ctx.flags.dryRun && ctx.clients.Has(p) && r.Ok?
  {
    if ctx.flags.dryRun then Ok(Attempt(p, false, true))
    else if !ctx.clients.Has(p) then Ok(Attempt(p, false, false))
    else
      var title :- TextOf(Get(fm, "title", Str("New Post")));
      var content :- TextOf(Get(fm, "microblog_content", Str("")));
      var ok :- Publish(p, title, content, url, ctx);
      Ok(Attempt(p, true, ok))
  }

  /** The result for a platform if `targets` names it. */
  function TryIfRequested(p: Platform, requested: bool, fm: Header, url: string, ctx: Context): (r: Result<seq<Attempt>>)
    ensures !requested ==> r == Ok([])
    ensures requested ==> (r.Ok? <==> Try(p, fm, url, ctx).Ok?)
    ensures requested && r.Ok? ==> r.value == [Try(p, fm, url, ctx).value]
    ensures requested && r.Err? ==> r.error == Try(p, fm, url, ctx).error
  {
    if requested then
      var a :- Try(p, fm, url, ctx);
      Ok([a])
    else Ok([])
  }

  function PlatformName(p: Platform): string {
    match p
    case Bluesky => "bluesky"
    case Mastodon => "mastodon"
  }

  /** The results list: Bluesky first, then Mastodon, each only when
      `syndicate_to` names it; a `syndicate_to` that cannot be searched
      raises TypeError. */
  function Results(fm: Header, url: string, ctx: Context): (r: Result<seq<Attempt>>)
    ensures r.Ok? ==> |r.value| <= 2
    ensures r.Ok? ==> forall j :: 0 <= j < |r.value| ==> Try(r.value[j].platform, fm, url, ctx) == Ok(r.value[j])
    ensures var targets := Get(fm, "syndicate_to", List([]));
      !(targets.List? || targets.Str? || targets.Table?) ==> r == Err(TypeError)
  {
    var targets := Get(fm, "syndicate_to", List([]));
    var wantsBluesky :- Contains(targets, PlatformName(Bluesky));
    var first :- TryIfRequested(Bluesky, wantsBluesky, fm, url, ctx);
    // The container was searched once already, so this test cannot raise.
    var wantsMastodon := Contains(targets, PlatformName(Mastodon)).value;
    var second :- TryIfRequested(Mastodon, wantsMastodon, fm, url, ctx);
    Ok(first + second)
  }

  /** `all(results)`, which holds for the empty list. */
  function AllOk(results: seq<Attempt>): (b: bool)
    ensures results == [] ==> b
    ensures b <==> forall a :: a in results ==> a.ok
  {
    forall i :: 0 <= i < |results| ==> results[i].ok
  }

  /** The syndication gate: a non-empty, all-true results list marks the page
      (or reports that it would in a dry run); outside a dry run any other
      non-empty list is a partial failure; an empty list does nothing. */
  function Gate(results: seq<Attempt>, dryRun: bool): (v: Verdict)
    ensures v == Marked <==> !dryRun && results != [] && AllOk(results)
    ensures v == WouldMark <==> dryRun && results != [] && AllOk(results)
    ensures v == PartialFailure <==> !dryRun && exists i :: 0 <= i < |results| && !results[i].ok
    ensures v == NoTargets <==> results == [] || (dryRun && !AllOk(results))
    ensures v != Unreachable
  {
    if results != [] && AllOk(results) then (if dryRun then WouldMark else Marked)
    else if !dryRun && results != [] then PartialFailure
    else NoTargets
  }

  /** One page of the processing loop. */
  function ProcessItem(item: Item, ctx: Context): (r: Result<Report>)
    ensures r.Ok? ==> r.value.path == item.path
    ensures r.Ok? && r.value.verdict == Unreachable ==> r.value.attempts == [] && !ctx.flags.dryRun && !ctx.flags.force
    ensures r.Ok? && r.value.verdict != Unreachable ==> r.value.verdict == Gate(r.value.attempts, ctx.flags.dryRun)
    ensures r.Ok? ==> forall j :: 0 <= j < |r.value.attempts| ==>
      Try(r.value.attempts[j].platform, item.header, r.value.url, ctx) == Ok(r.value.attempts[j])
  {
    var url :- UrlFor(ctx.baseUrl, item.path, item.header);
    if !ctx.flags.dryRun && !ctx.flags.force && !ctx.env.reachable(url) then
      Ok(Report(item.path, url, [], Unreachable))
    else
      var results :- Results(item.header, url, ctx);
      var verdict := Gate(results, ctx.flags.dryRun);
      assert verdict != Unreachable;
      Ok(Report(item.path, url, results, verdict))
  }

  /** The processing loop of `main` for one page: the results list is built
      by appending, and an exception ends the run. */
  method ProcessOne(item: Item, ctx: Context) returns (r: Result<Report>)
    ensures r == ProcessItem(item, ctx)
  {
    var url :- UrlFor(ctx.baseUrl, item.path, item.header);
    if !ctx.flags.dryRun && !ctx.flags.force && !ctx.env.reachable(url) {
      return Ok(Report(item.path, url, [], Unreachable));
    }
    var results :- CollectResults(item.header, url, ctx);
    r := Ok(Report(item.path, url, results, Gate(results, ctx.flags.dryRun)));
  }

  /** The per-page results list of `main`, built by appending. */
  method CollectResults(fm: Header, url: string, ctx: Context) returns (r: Result<seq<Attempt>>)
    ensures r == Results(fm, url, ctx)
  {
    var targets := Get(fm, "syndicate_to", List([]));
    var results: seq<Attempt> := [];
    var wantsBluesky := Contains(targets, PlatformName(Bluesky));
    if wantsBluesky.Err? {
      return Err(wantsBluesky.error);
    }
    if wantsBluesky.value {
      var a := Try(Bluesky, fm, url, ctx);
      if a.Err? {
        return Err(a.error);
      }
      results := results + [a.value];
      assert results == [a.value];
    }
    ghost var first := results;
    var wantsMastodon := Contains(targets, PlatformName(Mastodon)).value;
    if wantsMastodon {
      var a := Try(Mastodon, fm, url, ctx);
      if a.Err? {
        return Err(a.error);
      }
      results := results + [a.value];
    }
    assert results == first + (if wantsMastodon then [Try(Mastodon, fm, url, ctx).value] else []);
    r := Ok(results);
  }

  /** The state a run leaves behind: the files, a report per page handled,
      and the exception that ended it early, if any. */
  datatype Run = Run(disk: Disk, reports: seq<Report>, crash: Option<PyError>)

  /** What each page of the manifest comes to on its own. A page's report
      depends on its path, its header and the outside world, never on the
      files, which the loop only writes. */
  function Outcomes(items: seq<Item>, ctx: Context): (r: seq<Result<Report>>)
    ensures |r| == |items|
    ensures forall i :: 0 <= i < |items| ==> r[i] == ProcessItem(items[i], ctx)
  {
    if items == [] then [] else [ProcessItem(items[0], ctx)] + Outcomes(items[1..], ctx)
  }

  /** The files after one page's report: its file is rewritten when the
      page is Marked. */
  function Advance(disk: Disk, report: Report): (d: Disk)
    ensures d.Keys == disk.Keys
    ensures report.verdict == Marked ==> d == MarkSyndicated(disk, report.path)
    ensures forall p :: p in disk && (report.verdict != Marked || p != report.path) ==> d[p] == disk[p]
  {
    if report.verdict == Marked then MarkSyndicated(disk, report.path) else disk
  }

  /** The rest of the run from page `i` on, given the files and the reports
      so far: a marked page's file is rewritten at once, and the first
      exception stops the run with the files as they are. The reports added
      are the outcomes from page `i` up to that exception. */
  function Continue(outcomes: seq<Result<Report>>, i: nat, disk: Disk, reports: seq<Report>): (r: Run)
    requires i <= |outcomes|
    ensures r.disk.Keys == disk.Keys
    ensures |reports| <= |r.reports| && forall k :: 0 <= k < |reports| ==> r.reports[k] == reports[k]
    decreases |outcomes| - i
  {
    if i == |outcomes| then Run(disk, reports, None)
    else match outcomes[i]
      case Err(e) => Run(disk, reports, Some(e))
      case Ok(report) =>
        Continue(outcomes, i + 1, Advance(disk, report), reports + [report])
  }

  /** The processing of the whole manifest, page by page, from the files as
      they are and no reports. */
  function ProcessAll(items: seq<Item>, disk: Disk, ctx: Context): (r: Run)
    ensures r.disk.Keys == disk.Keys
  {
    Continue(Outcomes(items, ctx), 0, disk, [])
  }

  /** Every page before the first exception is reported, in manifest order,
      and the exception is the one the next page raised. */
  lemma ProcessAllReports(items: seq<Item>, disk: Disk, ctx: Context)
    ensures var r := ProcessAll(items, disk, ctx);
      |r.reports| <= |items| &&
      (forall k :: 0 <= k < |r.reports| ==> ProcessItem(items[k], ctx) == Ok(r.reports[k])) &&
      (r.crash.None? ==> |r.reports| == |items|) &&
      (r.crash.Some? ==> |r.reports| < |items| && ProcessItem(items[|r.reports|], ctx) == Err(r.crash.value))
  {
    ContinueFromStart(Outcomes(items, ctx), disk);
  }

  lemma ContinueFromStart(outcomes: seq<Result<Report>>, disk: Disk)
    ensures var r := Continue(outcomes, 0, disk, []);
      |r.reports| <= |outcomes| &&
      (forall k :: 0 <= k < |r.reports| ==> outcomes[k] == Ok(r.reports[k])) &&
      (r.crash.None? ==> |r.reports| == |outcomes|) &&
      (r.crash.Some? ==> |r.reports| < |outcomes| && outcomes[|r.reports|] == Err(r.crash.value))
  {
    ContinueReports(outcomes, 0, disk, []);
    var r := Continue(outcomes, 0, disk, []);
    forall k | 0 <= k < |r.reports| ensures outcomes[k] == Ok(r.reports[k]) {
      assert outcomes[0 + k - 0] == Ok(r.reports[k]);
    }
  }

  /** The processing loop of `main`. */
  method ProcessManifest(items: seq<Item>, disk: Disk, ctx: Context) returns (run: Run)
    ensures run == ProcessAll(items, disk, ctx)
  {
    var files := disk;
    var reports: seq<Report> := [];
    ghost var outcomes := Outcomes(items, ctx);
    for i := 0 to |items|
      invariant Continue(outcomes, i, files, reports) == ProcessAll(items, disk, ctx)
    {
      var r := ProcessOne(items[i], ctx);
      assert r == outcomes[i];
      if r.Err? {
        ContinueStops(outcomes, i, files, reports);
        return Run(files, reports, Some(r.error));
      }
      ContinueStep(outcomes, i, files, reports);
      var next := files;
      if r.value.verdict == Marked {
        next := MarkFile(files, items[i].path);
      }
      assert next == Advance(files, r.value);
      files, reports := next, reports + [r.value];
    }
    run := Run(files, reports, None);
  }

  /** The reports the rest of the run adds are the outcomes from page `i`
      on, up to the first exception, which is the one the run ends with. */
  lemma ContinueReports(outcomes: seq<Result<Report>>, i: nat, disk: Disk, reports: seq<Report>)
    requires i <= |outcomes|
    ensures var r := Continue(outcomes, i, disk, reports);
      |r.reports| <= |reports| + |outcomes| - i &&
      (forall k :: |reports| <= k < |r.reports| ==> outcomes[i + k - |reports|] == Ok(r.reports[k])) &&
      (r.crash.None? ==> |r.reports| == |reports| + |outcomes| - i) &&
      (r.crash.Some? ==> |r.reports| < |reports| + |outcomes| - i && outcomes[i + |r.reports| - |reports|] == Err(r.crash.value))
  {
    ContinueAdded(outcomes, i, disk, reports);
    ContinueEnds(outcomes, i, disk, reports);
  }

  /** Each report the rest of the run adds is the outcome of its page. */
  lemma {:induction false} ContinueAdded(outcomes: seq<Result<Report>>, i: nat, disk: Disk, reports: seq<Report>)
    requires i <= |outcomes|
    ensures var r := Continue(outcomes, i, disk, reports);
      |r.reports| <= |reports| + |outcomes| - i &&
      forall k :: |reports| <= k < |r.reports| ==> outcomes[i + k - |reports|] == Ok(r.reports[k])
    decreases |outcomes| - i
  {
    if i < |outcomes| && outcomes[i].Ok? {
      var report := outcomes[i].value;
      var next := Advance(disk, report);
      ContinueAdded(outcomes, i + 1, next, reports + [report]);
      var r := Continue(outcomes, i + 1, next, reports + [report]);
      assert r.reports[|reports|] == (reports + [report])[|reports|];
    }
  }

  /** The rest of the run reaches the last page unless a page raises, and
      then it stops at that page with its exception. */
  lemma {:induction false} ContinueEnds(outcomes: seq<Result<Report>>, i: nat, disk: Disk, reports: seq<Report>)
    requires i <= |outcomes|
    ensures var r := Continue(outcomes, i, disk, reports);
      (r.crash.None? ==> |r.reports| == |reports| + |outcomes| - i) &&
      (r.crash.Some? ==> |r.reports| < |reports| + |outcomes| - i && outcomes[i + |r.reports| - |reports|] == Err(r.crash.value))
    decreases |outcomes| - i
  {
    if i < |outcomes| && outcomes[i].Ok? {
      var report := outcomes[i].value;
      var next := Advance(disk, report);
      ContinueEnds(outcomes, i + 1, next, reports + [report]);
    }
  }

  /** Outcomes none of which marks a page leave every file as it was. */
  lemma {:induction false} ContinueUnmarked(outcomes: seq<Result<Report>>, i: nat, disk: Disk, reports: seq<Report>)
    requires i <= |outcomes|
    requires forall j :: i <= j < |outcomes| && outcomes[j].Ok? ==> outcomes[j].value.verdict != Marked
    ensures Continue(outcomes, i, disk, reports).disk == disk
    decreases |outcomes| - i
  {
    if i < |outcomes| && outcomes[i].Ok? {
      ContinueUnmarked(outcomes, i + 1, disk, reports + [outcomes[i].value]);
    }
  }

  /** A file the rest of the run changes was named by a marked report. */
  lemma {:induction false} ContinueOnlyMarked(outcomes: seq<Result<Report>>, i: nat, disk: Disk, reports: seq<Report>, p: string)
    requires i <= |outcomes| && p in disk
    ensures var run := Continue(outcomes, i, disk, reports);
      run.disk[p] != disk[p] ==>
        exists k :: |reports| <= k < |run.reports| && run.reports[k].path == p && run.reports[k].verdict == Marked
    decreases |outcomes| - i
  {
    if i < |outcomes| && outcomes[i].Ok? {
      var report := outcomes[i].value;
      var next := Advance(disk, report);
      var run := Continue(outcomes, i + 1, next, reports + [report]);
      ContinueOnlyMarked(outcomes, i + 1, next, reports + [report], p);
      if run.disk[p] != disk[p] && next[p] != disk[p] {
        assert run.reports[|reports|] == (reports + [report])[|reports|];
      }
    }
  }

  /** A file no marked report from page `i` on names is left as it was. */
  lemma {:induction false} ContinueKeeps(outcomes: seq<Result<Report>>, i: nat, disk: Disk, reports: seq<Report>, p: string)
    requires i <= |outcomes| && p in disk
    requires forall j :: i <= j < |outcomes| && outcomes[j].Ok? && outcomes[j].value.verdict == Marked ==> outcomes[j].value.path != p
    ensures Continue(outcomes, i, disk, reports).disk[p] == disk[p]
    decreases |outcomes| - i
  {
    if i < |outcomes| && outcomes[i].Ok? {
      var report := outcomes[i].value;
      var next := Advance(disk, report);
      ContinueKeeps(outcomes, i + 1, next, reports + [report], p);
    }
  }

  /** Marking a file reads that file only. */
  lemma MarkReadsOwnFile(d1: Disk, d2: Disk, p: string)
    requires p in d1 && p in d2 && d1[p] == d2[p]
    ensures MarkSyndicated(d1, p)[p] == MarkSyndicated(d2, p)[p]
  {
  }

  /** A page that raises ends the run with the files and reports as they are. */
  lemma ContinueStops(outcomes: seq<Result<Report>>, i: nat, disk: Disk, reports: seq<Report>)
    requires i < |outcomes| && outcomes[i].Err?
    ensures Continue(outcomes, i, disk, reports) == Run(disk, reports, Some(outcomes[i].error))
  {
  }

  /** One step of the rest of the run over a page that raised nothing. */
  lemma ContinueStep(outcomes: seq<Result<Report>>, i: nat, disk: Disk, reports: seq<Report>)
    requires i < |outcomes| && outcomes[i].Ok?
    ensures Continue(outcomes, i, disk, reports) ==
      Continue(outcomes, i + 1, Advance(disk, outcomes[i].value), reports + [outcomes[i].value])
  {
  }

  /** A Marked page whose file no later marked page names ends the run
      with that file rewritten. */
  lemma ContinueMarksHere(outcomes: seq<Result<Report>>, i: nat, disk: Disk, reports: seq<Report>, p: string)
    requires i < |outcomes| && outcomes[i].Ok? && outcomes[i].value.verdict == Marked
    requires p == outcomes[i].value.path && p in disk
    requires forall j :: i < j < |outcomes| && outcomes[j].Ok? && outcomes[j].value.verdict == Marked ==> outcomes[j].value.path != p
    ensures Continue(outcomes, i, disk, reports).disk[p] == MarkSyndicated(disk, p)[p]
  {
    ContinueStep(outcomes, i, disk, reports);
    ContinueKeeps(outcomes, i + 1, Advance(disk, outcomes[i].value), reports + [outcomes[i].value], p);
  }

  /** When the run reaches page `k` and reports it Marked, its file ends up
      rewritten with the marker, once, provided no other marked page names
      the same file. */
  lemma {:induction false} ContinueMarks(outcomes: seq<Result<Report>>, i: nat, disk: Disk, reports: seq<Report>, k: nat)
    requires i <= k < |outcomes|
    requires forall j :: i <= j <= k ==> outcomes[j].Ok?
    requires outcomes[k].Ok? && outcomes[k].value.verdict == Marked
    requires forall j :: i <= j < |outcomes| && j != k && outcomes[j].Ok? && outcomes[j].value.verdict == Marked ==>
      outcomes[j].value.path != outcomes[k].value.path
    ensures var p := outcomes[k].value.path;
      p in disk ==> Continue(outcomes, i, disk, reports).disk[p] == MarkSyndicated(disk, p)[p]
    decreases k - i
  {
    var p := outcomes[k].value.path;
    if p in disk {
      if i == k {
        ContinueMarksHere(outcomes, i, disk, reports, p);
      } else {
        var next := Advance(disk, outcomes[i].value);
        ContinueStep(outcomes, i, disk, reports);
        ContinueMarks(outcomes, i + 1, next, reports + [outcomes[i].value], k);
        MarkReadsOwnFile(next, disk, p);
      }
    }
  }

  /** With the pages' files distinct, each reported page's file is rewritten
      with the marker if the page is Marked, and left as it was otherwise. */
  lemma ContinueRewritesMarked(outcomes: seq<Result<Report>>, disk: Disk, k: nat)
    requires forall a, b :: 0 <= a < b < |outcomes| && outcomes[a].Ok? && outcomes[b].Ok? ==>
      outcomes[a].value.path != outcomes[b].value.path
    requires k < |Continue(outcomes, 0, disk, []).reports|
    ensures var run := Continue(outcomes, 0, disk, []);
      var p := run.reports[k].path;
      p in disk ==> run.disk[p] == if run.reports[k].verdict == Marked then MarkSyndicated(disk, p)[p] else disk[p]
  {
    var run := Continue(outcomes, 0, disk, []);
    ContinueAdded(outcomes, 0, disk, []);
    assert outcomes[k] == Ok(run.reports[k]);
    forall j | 0 <= j <= k ensures outcomes[j].Ok? {
      assert outcomes[0 + j - 0] == Ok(run.reports[j]);
    }
    var p := run.reports[k].path;
    if p in disk {
      if run.reports[k].verdict == Marked {
        ContinueMarks(outcomes, 0, disk, [], k);
      } else {
        ContinueKeeps(outcomes, 0, disk, [], p);
      }
    }
  }

  // ------------------------------------------------------------ properties

  /** Nothing is posted from a dry run, and no file changes. */
  lemma DryRunChangesNothing(items: seq<Item>, disk: Disk, ctx: Context)
    requires ctx.flags.dryRun
    ensures var run := ProcessAll(items, disk, ctx);
      run.disk == disk &&
      forall k, j :: 0 <= k < |run.reports| && 0 <= j < |run.reports[k].attempts| ==> !run.reports[k].attempts[j].sent
  {
    var outcomes := Outcomes(items, ctx);
    forall i | 0 <= i < |outcomes| && outcomes[i].Ok?
      ensures outcomes[i].value.verdict != Marked
    {
      NothingSentInDryRun(items[i], ctx);
    }
    ContinueUnmarked(outcomes, 0, disk, []);
    ProcessAllReports(items, disk, ctx);
    var run := ProcessAll(items, disk, ctx);
    forall k, j | 0 <= k < |run.reports| && 0 <= j < |run.reports[k].attempts|
      ensures !run.reports[k].attempts[j].sent
    {
      NothingSentInDryRun(items[k], ctx);
    }
  }

  lemma NothingSentInDryRun(item: Item, ctx: Context)
    requires ctx.flags.dryRun && ProcessItem(item, ctx).Ok?
    ensures var report := ProcessItem(item, ctx).value;
      report.verdict != Marked &&
      forall j :: 0 <= j < |report.attempts| ==> !report.attempts[j].sent && report.attempts[j].ok
  {
    var url := UrlFor(ctx.baseUrl, item.path, item.header).value;
    var results := Results(item.header, url, ctx).value;
    assert forall j :: 0 <= j < |results| ==> results[j] == Attempt(results[j].platform, false, true);
  }

  /** With the script's own `truncate_text`, a page for which a post would
      be sent ends the run with NameError: no post is ever sent, and no page
      is marked. */
  lemma AsWrittenNeverSends(item: Item, ctx: Context)
    requires ctx.truncation.Script() && ProcessItem(item, ctx).Ok?
    ensures var report := ProcessItem(item, ctx).value;
      report.verdict != Marked &&
      forall j :: 0 <= j < |report.attempts| ==> !report.attempts[j].sent
  {
    var report := ProcessItem(item, ctx).value;
    forall j | 0 <= j < |report.attempts|
      ensures !report.attempts[j].sent && (!ctx.flags.dryRun ==> !report.attempts[j].ok)
    {
      TryAsWritten(report.attempts[j].platform, item.header, report.url, ctx);
    }
    if report.attempts != [] && !ctx.flags.dryRun {
      assert !report.attempts[0].ok;
    }
  }

  lemma TryAsWritten(p: Platform, fm: Header, url: string, ctx: Context)
    requires ctx.truncation.Script() && Try(p, fm, url, ctx).Ok?
    ensures !Try(p, fm, url, ctx).value.sent
    ensures !ctx.flags.dryRun ==> !Try(p, fm, url, ctx).value.ok
  {
  }

  /** ... so the script as written leaves every file as it was. */
  lemma AsWrittenChangesNothing(items: seq<Item>, disk: Disk, ctx: Context)
    requires ctx.truncation.Script()
    ensures ProcessAll(items, disk, ctx).disk == disk
  {
    var outcomes := Outcomes(items, ctx);
    forall i | 0 <= i < |outcomes| && outcomes[i].Ok?
      ensures outcomes[i].value.verdict != Marked
    {
      AsWrittenNeverSends(items[i], ctx);
    }
    ContinueUnmarked(outcomes, 0, disk, []);
  }

  /** A file changes only when the page it holds was reported marked. */
  lemma OnlyMarkedPagesChange(items: seq<Item>, disk: Disk, ctx: Context, p: string)
    requires p in disk
    ensures var run := ProcessAll(items, disk, ctx);
      run.disk[p] != disk[p] ==> exists k :: 0 <= k < |run.reports| && run.reports[k].path == p && run.reports[k].verdict == Marked
  {
    ContinueOnlyMarked(Outcomes(items, ctx), 0, disk, [], p);
  }

  /** In a manifest that names each file once, a page the run reports as
      Marked has the marker written into its file, and a page reported
      otherwise keeps its file, even when a later page ends the run. */
  lemma MarkedPagesRewritten(items: seq<Item>, disk: Disk, ctx: Context)
    requires forall a, b :: 0 <= a < b < |items| ==> items[a].path != items[b].path
    ensures var run := ProcessAll(items, disk, ctx);
      forall k :: 0 <= k < |run.reports| && run.reports[k].path in disk ==>
        run.disk[run.reports[k].path] ==
          if run.reports[k].verdict == Marked then MarkSyndicated(disk, run.reports[k].path)[run.reports[k].path]
          else disk[run.reports[k].path]
  {
    var outcomes := Outcomes(items, ctx);
    forall a, b | 0 <= a < b < |outcomes| && outcomes[a].Ok? && outcomes[b].Ok?
      ensures outcomes[a].value.path != outcomes[b].value.path
    {
      assert outcomes[a].value.path == items[a].path;
    }
    var run := Continue(outcomes, 0, disk, []);
    forall k | 0 <= k < |run.reports| && run.reports[k].path in disk
      ensures run.disk[run.reports[k].path] ==
        if run.reports[k].verdict == Marked then MarkSyndicated(disk, run.reports[k].path)[run.reports[k].path]
        else disk[run.reports[k].path]
    {
      ContinueRewritesMarked(outcomes, disk, k);
    }
  }

  /** Outside a dry run and force mode, a page whose URL does not answer is
      skipped before any target is tried, and stays unmarked. */
  lemma UnreachableSkipped(item: Item, ctx: Context, url: string)
    requires UrlFor(ctx.baseUrl, item.path, item.header) == Ok(url)
    requires !ctx.flags.dryRun && !ctx.flags.force && !ctx.env.reachable(url)
    ensures ProcessItem(item, ctx) == Ok(Report(item.path, url, [], Unreachable))
  {
  }

  /** Whether the platform accepted the post built for the page. */
  predicate Delivered(p: Platform, title: string, content: string, url: string, env: Env) {
    match p
    case Bluesky => env.postBluesky(BlueskyPostFor(title, content, url))
    case Mastodon => env.postMastodon(MastodonStatus(title, content, url))
  }

  /** With the repaired excerpt and a text title and body, a requested
      platform yields true in a dry run, false without a client, and
      otherwise whether the post was accepted. */
  lemma TryRepaired(p: Platform, fm: Header, url: string, ctx: Context, title: string, content: string)
    requires ctx.truncation == Repaired
    requires Get(fm, "title", Str("New Post")) == Str(title)
    requires Get(fm, "microblog_content", Str("")) == Str(content)
    ensures Try(p, fm, url, ctx) == Ok(Attempt(p, !ctx.flags.dryRun && ctx.clients.Has(p),
      ctx.flags.dryRun || (ctx.clients.Has(p) && Delivered(p, title, content, url, ctx.env))))
  {
  }

  function Optional(present: bool, a: Attempt): seq<Attempt> {
    if present then [a] else []
  }

  lemma ResultsOf(fm: Header, url: string, ctx: Context, wantsBluesky: bool, wantsMastodon: bool)
    requires Contains(Get(fm, "syndicate_to", List([])), "bluesky") == Ok(wantsBluesky)
    requires Contains(Get(fm, "syndicate_to", List([])), "mastodon") == Ok(wantsMastodon)
    requires Try(Bluesky, fm, url, ctx).Ok? && Try(Mastodon, fm, url, ctx).Ok?
    ensures Results(fm, url, ctx) ==
      Ok(Optional(wantsBluesky, Try(Bluesky, fm, url, ctx).value) + Optional(wantsMastodon, Try(Mastodon, fm, url, ctx).value))
  {
    assert PlatformName(Bluesky) == "bluesky" && PlatformName(Mastodon) == "mastodon";
  }

  lemma AllOkOfTwo(b1: bool, a1: Attempt, b2: bool, a2: Attempt)
    ensures AllOk(Optional(b1, a1) + Optional(b2, a2)) <==> (b1 ==> a1.ok) && (b2 ==> a2.ok)
  {
    var s := Optional(b1, a1) + Optional(b2, a2);
    if b1 && b2 {
      assert s == [a1, a2];
      assert AllOk(s) <==> s[0].ok && s[1].ok;
    } else if b1 {
      assert s == [a1];
      assert AllOk(s) <==> s[0].ok;
    } else if b2 {
      assert s == [a2];
      assert AllOk(s) <==> s[0].ok;
    } else {
      assert s == [];
    }
  }

  /** The all-or-nothing gate, in terms of the page and the outside world:
      with the repaired excerpt, a page is marked exactly when it is not a
      dry run, the URL check passed or was skipped by force, at least one
      platform was requested, and every requested platform had a client and
      accepted its post. */
  lemma MarkedExactlyWhenAllPostsSucceed(item: Item, ctx: Context, url: string, wantsBluesky: bool, wantsMastodon: bool,
                                         title: string, content: string)
    requires ctx.truncation == Repaired
    requires UrlFor(ctx.baseUrl, item.path, item.header) == Ok(url)
    requires Contains(Get(item.header, "syndicate_to", List([])), "bluesky") == Ok(wantsBluesky)
    requires Contains(Get(item.header, "syndicate_to", List([])), "mastodon") == Ok(wantsMastodon)
    requires Get(item.header, "title", Str("New Post")) == Str(title)
    requires Get(item.header, "microblog_content", Str("")) == Str(content)
    ensures ProcessItem(item, ctx).Ok?
    ensures ProcessItem(item, ctx).value.verdict == Marked <==>
      !ctx.flags.dryRun && (ctx.flags.force || ctx.env.reachable(url)) && (wantsBluesky || wantsMastodon) &&
      (wantsBluesky ==> ctx.clients.bluesky && Delivered(Bluesky, title, content, url, ctx.env)) &&
      (wantsMastodon ==> ctx.clients.mastodon && Delivered(Mastodon, title, content, url, ctx.env))
  {
    var fm := item.header;
    TryRepaired(Bluesky, fm, url, ctx, title, content);
    TryRepaired(Mastodon, fm, url, ctx, title, content);
    ResultsOf(fm, url, ctx, wantsBluesky, wantsMastodon);
    var a1, a2 := Try(Bluesky, fm, url, ctx).value, Try(Mastodon, fm, url, ctx).value;
    var results := Optional(wantsBluesky, a1) + Optional(wantsMastodon, a2);
    AllOkOfTwo(wantsBluesky, a1, wantsMastodon, a2);
    assert results != [] <==> wantsBluesky || wantsMastodon;
    if ctx.flags.dryRun || ctx.flags.force || ctx.env.reachable(url) {
      assert ProcessItem(item, ctx) == Ok(Report(item.path, url, results, Gate(results, ctx.flags.dryRun)));
    }
  }

  /** A page posted to Bluesky whose Mastodon post fails is a partial
      failure: it is reported, and its file is left unmarked. */
  lemma PartialFailureNotMarked(item: Item, disk: Disk, ctx: Context, url: string, title: string, content: string)
    requires ctx.truncation == Repaired && !ctx.flags.dryRun
    requires UrlFor(ctx.baseUrl, item.path, item.header) == Ok(url)
    requires ctx.flags.force || ctx.env.reachable(url)
    requires Contains(Get(item.header, "syndicate_to", List([])), "bluesky") == Ok(true)
    requires Contains(Get(item.header, "syndicate_to", List([])), "mastodon") == Ok(true)
    requires Get(item.header, "title", Str("New Post")) == Str(title)
    requires Get(item.header, "microblog_content", Str("")) == Str(content)
    requires ctx.clients == Clients(true, true)
    requires Delivered(Bluesky, title, content, url, ctx.env) && !Delivered(Mastodon, title, content, url, ctx.env)
    ensures ProcessItem(item, ctx) ==
      Ok(Report(item.path, url, [Attempt(Bluesky, true, true), Attempt(Mastodon, true, false)], PartialFailure))
    ensures ProcessAll([item], disk, ctx).disk == disk
  {
    PartialFailureReport(item, ctx, url, title, content);
    var report := Report(item.path, url, [Attempt(Bluesky, true, true), Attempt(Mastodon, true, false)], PartialFailure);
    OneUnmarked(Outcomes([item], ctx), report, disk);
  }

  /** A run of one page whose report leaves it unmarked changes no file. */
  lemma OneUnmarked(outcomes: seq<Result<Report>>, report: Report, disk: Disk)
    requires outcomes == [Ok(report)] && report.verdict != Marked
    ensures Continue(outcomes, 0, disk, []).disk == disk
  {
    ContinueUnmarked(outcomes, 0, disk, []);
  }

  lemma PartialFailureReport(item: Item, ctx: Context, url: string, title: string, content: string)
    requires ctx.truncation == Repaired && !ctx.flags.dryRun
    requires UrlFor(ctx.baseUrl, item.path, item.header) == Ok(url)
    requires ctx.flags.force || ctx.env.reachable(url)
    requires Contains(Get(item.header, "syndicate_to", List([])), "bluesky") == Ok(true)
    requires Contains(Get(item.header, "syndicate_to", List([])), "mastodon") == Ok(true)
    requires Get(item.header, "title", Str("New Post")) == Str(title)
    requires Get(item.header, "microblog_content", Str("")) == Str(content)
    requires ctx.clients == Clients(true, true)
    requires Delivered(Bluesky, title, content, url, ctx.env) && !Delivered(Mastodon, title, content, url, ctx.env)
    ensures ProcessItem(item, ctx) ==
      Ok(Report(item.path, url, [Attempt(Bluesky, true, true), Attempt(Mastodon, true, false)], PartialFailure))
  {
    var fm := item.header;
    TryRepaired(Bluesky, fm, url, ctx, title, content);
    TryRepaired(Mastodon, fm, url, ctx, title, content);
    ResultsOf(fm, url, ctx, true, true);
    OneSentOneFailed(Attempt(Bluesky, true, true), Attempt(Mastodon, true, false));
  }

  /** Two requested posts of which only the first succeeds: a partial failure. */
  lemma OneSentOneFailed(sent: Attempt, failed: Attempt)
    requires sent.ok && !failed.ok
    ensures Optional(true, sent) + Optional(true, failed) == [sent, failed]
    ensures Gate([sent, failed], false) == PartialFailure
  {
    assert ![sent, failed][1].ok;
  }

  // ------------------------------------------------------------- whole run

  /** How a run ends: an exit for want of credentials, or the processing. */
  datatype Outcome = Exit | Finished(run: Run)

  /** `main` from client set-up to the last page. */
  function Syndicate(flags: Flags, creds: Credentials, blueskyMade: bool, mastodonMade: bool,
                     walk: seq<DirListing>, disk: Disk, parsers: Parsers,
                     baseUrl: Option<string>, env: Env, truncation: Truncation): (o: Outcome)
    ensures o.Exit? <==> InitClients(flags, creds, blueskyMade, mastodonMade).None?
  {
    match InitClients(flags, creds, blueskyMade, mastodonMade)
    case None => Exit
    case Some(clients) =>
      var manifest := ScanWalk(disk, parsers, walk, |walk|);
      Finished(ProcessAll(manifest, disk, Context(baseUrl, flags, clients, env, truncation)))
  }

  /** A run with no credentials at all exits before reading any page. */
  lemma NoCredentialsExits(flags: Flags, creds: Credentials, blueskyMade: bool, mastodonMade: bool,
                           walk: seq<DirListing>, disk: Disk, parsers: Parsers,
                           baseUrl: Option<string>, env: Env, truncation: Truncation)
    requires !flags.dryRun && !HasBlueskyCredentials(creds) && !HasMastodonCredentials(creds)
    ensures Syndicate(flags, creds, blueskyMade, mastodonMade, walk, disk, parsers, baseUrl, env, truncation) == Exit
  {
  }

  /** A dry run always gets through set-up and leaves every file as it was. */
  lemma DryRunLeavesFiles(flags: Flags, creds: Credentials, blueskyMade: bool, mastodonMade: bool,
                          walk: seq<DirListing>, disk: Disk, parsers: Parsers,
                          baseUrl: Option<string>, env: Env, truncation: Truncation)
    requires flags.dryRun
    ensures var o := Syndicate(flags, creds, blueskyMade, mastodonMade, walk, disk, parsers, baseUrl, env, truncation);
      o.Finished? && o.run.disk == disk
  {
    var manifest := ScanWalk(disk, parsers, walk, |walk|);
    DryRunChangesNothing(manifest, disk, Context(baseUrl, flags, Clients(false, false), env, truncation));
  }

  /** `main` as a method: set up, scan, process. */
  method RunSyndication(flags: Flags, creds: Credentials, blueskyMade: bool, mastodonMade: bool,
                          walk: seq<DirListing>, disk: Disk, parsers: Parsers,
                          baseUrl: Option<string>, env: Env) returns (o: Outcome)
    ensures o == Syndicate(flags, creds, blueskyMade, mastodonMade, walk, disk, parsers, baseUrl, env, Repaired)
  {
    var clients := InitClients(flags, creds, blueskyMade, mastodonMade);
    if clients.None? {
      return Exit;
    }
    var manifest := Scan(disk, parsers, walk);
    var run := ProcessManifest(manifest, disk, Context(baseUrl, flags, clients.value, env, Repaired));
    o := Finished(run);
  }
}
