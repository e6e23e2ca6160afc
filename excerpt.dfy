/** The excerpt the script posts: a title, a body cut to the platform's
    character budget, and an optional suffix that is never shortened
    (`truncate_text`), and the texts built from it for Bluesky and Mastodon. */
module Excerpt {
  import opened PyStr

  const BlueskyCharLimit: int := 290
  const MastodonCharLimit: int := 490
  /** Bluesky's link card shows at most this many characters of the body. */
  const CardDescriptionLimit: int := 200

  /** The characters left for the body once the title, the suffix and the
      blank lines between the parts are reserved. */
  function Available(title: string, limit: int, suffix: string): (r: int)
    ensures suffix == "" ==> r == limit - |title| - 2
    ensures suffix != "" ==> r == limit - |title| - |suffix| - 4
  {
    var padding := if suffix != "" then 2 else 0;
    limit - (|title| + 2 + |suffix| + padding)
  }

  /** The body as it enters the post when there is room for one: kept whole
      when it fits, otherwise its first `available - 3` characters (a Python
      slice, so a negative bound counts from the end) and `...`. */
  function Body(content: string, available: int): (r: string)
    requires available > 0
    ensures content == "" ==> r == ""
    ensures 0 < |content| <= available ==> r == content
    ensures |content| > available ==> r == Prefix(content, available - 3) + "..."
  {
    if content == "" then ""
    else if |content| > available then Prefix(content, available - 3) + "..."
    else content
  }

  /** `truncate_text(title, content, limit, suffix)`, reading the parameter
      `suffix` where the script reads the undefined name `forced_suffix`. */
  function TruncateText(title: string, content: string, limit: int, suffix: string): (r: string)
    ensures suffix != "" ==> EndsWith(r, suffix)
    ensures Available(title, limit, suffix) > 0 ==> StartsWith(r, title)
  {
    var available := Available(title, limit, suffix);
    if available <= 0 then
      Prefix(title, limit - |suffix| - 5) + "... " + suffix
    else
      var body := Body(content, available);
      var parts := [title] + (if body != "" then [body] else []);
      JoinStartsWithFirst(parts, "\n\n");
      if suffix != "" then
        JoinAppend(parts, suffix, "\n\n");
        JoinStartsWithFirst(parts + [suffix], "\n\n");
        Join(parts + [suffix], "\n\n")
      else Join(parts, "\n\n")
  }

  lemma {:induction false} JoinStartsWithFirst(parts: seq<string>, sep: string)
    requires parts != []
    ensures StartsWith(Join(parts, sep), parts[0])
  {
    if |parts| > 1 {
      assert Join(parts, sep) == parts[0] + (sep + Join(parts[1..], sep));
    }
  }

  /** The names bound at the top level of posse.py: the ones the
      interpreter binds in every module, then the script's imports, its
      constants and its functions. */
  const ModuleNames: set<string> := {
    "__name__", "__doc__", "__package__", "__loader__", "__spec__", "__file__",
    "__cached__", "__builtins__", "__annotations__",
    "warnings", "os", "sys", "tomllib", "yaml", "argparse", "logging", "requests",
    "load_dotenv", "Client", "models", "Mastodon",
    "BASE_URL", "BSKY_HANDLE", "BSKY_PASSWORD", "BSKY_CHAR_LIMIT",
    "MASTODON_ACCESS_TOKEN", "MASTODON_API_BASE", "MASTODON_CHAR_LIMIT",
    "parse_frontmatter", "get_post_url", "verify_url_accessible", "truncate_text",
    "syndicate_to_bluesky", "syndicate_to_mastodon", "mark_syndicated", "main"}

  /** Python's lookup of a name read inside a function body: the function's
      own variables first, then the module's globals (no builtin holds
      text); a name bound in neither raises NameError. */
  function LookUp(locals: map<string, string>, globals: map<string, string>, name: string): (r: Result<string>)
    ensures r.Err? <==> name !in locals && name !in globals
    ensures r.Err? ==> r.error == NameError
    ensures name in locals ==> r == Ok(locals[name])
    ensures name !in locals && name in globals ==> r == Ok(globals[name])
  {
    if name in locals then Ok(locals[name])
    else if name in globals then Ok(globals[name])
    else Err(NameError)
  }

  /** `truncate_text` as the script has it, given the module's text-valued
      globals: both return paths evaluate the name `forced_suffix` where
      the repaired version reads `suffix`. */
  function TruncateTextAsWritten(title: string, content: string, limit: int, suffix: string,
                                 globals: map<string, string>): (r: Result<string>)
    ensures r.Err? <==> "forced_suffix" !in globals
    ensures r.Err? ==> r.error == NameError
  {
    var available := Available(title, limit, suffix);
    var locals := map["title" := title, "content" := content, "suffix" := suffix];
    if available <= 0 then
      var forced :- LookUp(locals, globals, "forced_suffix");
      Ok(Prefix(title, limit - |forced| - 5) + "... " + forced)
    else
      var body := Body(content, available);
      var parts := [title] + (if body != "" then [body] else []);
      var forced :- LookUp(locals["final_content" := body], globals, "forced_suffix");
      Ok(if forced != "" then Join(parts + [forced], "\n\n") else Join(parts, "\n\n"))
  }

  /** No Python slice bound the truncation computes is negative: in the
      saturation branch `limit - len(suffix) - 5`, and when the body is cut,
      `available - 3`. */
  predicate NoNegativeSlice(title: string, content: string, limit: int, suffix: string) {
    var available := Available(title, limit, suffix);
    (available <= 0 ==> limit - |suffix| - 5 >= 0) &&
    (available > 0 && |content| > available ==> available >= 3)
  }

  // ------------------------------------------------------------ properties

  /** Neither the function's variables nor the module bind `forced_suffix`,
      so whichever return path a call takes, it raises NameError. */
  lemma ForcedSuffixRaises(title: string, content: string, limit: int, suffix: string, globals: map<string, string>)
    requires globals.Keys <= ModuleNames
    ensures TruncateTextAsWritten(title, content, limit, suffix, globals) == Err(NameError)
  {
    assert "forced_suffix" !in ModuleNames;
  }

  /** Were `forced_suffix` a global holding the call's own `suffix`, the
      script's function would return exactly the repaired text. */
  lemma ForcedSuffixBound(title: string, content: string, limit: int, suffix: string, globals: map<string, string>)
    requires "forced_suffix" in globals && globals["forced_suffix"] == suffix
    ensures TruncateTextAsWritten(title, content, limit, suffix, globals) == Ok(TruncateText(title, content, limit, suffix))
  {
  }

  /** The result never exceeds `limit` when no slice bound is negative. */
  lemma TruncateWithinLimit(title: string, content: string, limit: int, suffix: string)
    requires NoNegativeSlice(title, content, limit, suffix)
    ensures |TruncateText(title, content, limit, suffix)| <= limit
  {
    var available := Available(title, limit, suffix);
    if available > 0 {
      TruncateLength(title, content, limit, suffix);
    }
  }

  /** With room for a body, the result's length is the reserved length plus
      the body's. */
  lemma TruncateLength(title: string, content: string, limit: int, suffix: string)
    requires Available(title, limit, suffix) > 0
    ensures var available := Available(title, limit, suffix);
      var body := Body(content, available);
      |TruncateText(title, content, limit, suffix)| ==
        |title| + (if body != "" then 2 + |body| else 0) + (if suffix != "" then 2 + |suffix| else 0)
  {
    var available := Available(title, limit, suffix);
    var body := Body(content, available);
    var parts := [title] + (if body != "" then [body] else []);
    assert |Join(parts, "\n\n")| == |title| + (if body != "" then 2 + |body| else 0) by {
      if body != "" { JoinAppend([title], body, "\n\n"); }
    }
    if suffix != "" {
      JoinAppend(parts, suffix, "\n\n");
    }
  }

  /** When the body is cut with fewer than three characters available, the
      slice bound is negative and counts from the end of the body: the result
      then overshoots `limit` by the body's whole length. */
  lemma TruncateOverrun(title: string, content: string, limit: int, suffix: string)
    requires 0 < Available(title, limit, suffix) < 3
    requires |content| > Available(title, limit, suffix)
    ensures |TruncateText(title, content, limit, suffix)| == limit + |content|
  {
    TruncateLength(title, content, limit, suffix);
  }

  /** A cut body fills the budget exactly: the result is `limit` long, and
      the body is a prefix of the content followed by `...`. */
  lemma BodyCutToBudget(title: string, content: string, limit: int, suffix: string)
    requires Available(title, limit, suffix) >= 3
    requires |content| > Available(title, limit, suffix)
    ensures var available := Available(title, limit, suffix);
      var r := TruncateText(title, content, limit, suffix);
      |r| == limit &&
      StartsWith(r, title + "\n\n" + content[..available - 3] + "...")
  {
    var available := Available(title, limit, suffix);
    var body := content[..available - 3] + "...";
    assert Body(content, available) == body;
    assert [title] + [body] == [title, body];
    TruncateLength(title, content, limit, suffix);
    JoinAppend([title], body, "\n\n");
    var head := title + "\n\n" + body;
    if suffix != "" {
      JoinAppend([title, body], suffix, "\n\n");
      var r := head + "\n\n" + suffix;
      assert r[..|head|] == head;
    }
  }

  /** A body that fits is kept verbatim, between the title and the suffix. */
  lemma BodyKeptWhole(title: string, content: string, limit: int, suffix: string)
    requires 0 < |content| <= Available(title, limit, suffix)
    ensures TruncateText(title, content, limit, suffix) ==
      title + "\n\n" + content + (if suffix != "" then "\n\n" + suffix else "")
  {
    var available := Available(title, limit, suffix);
    assert Body(content, available) == content;
    assert [title] + [content] == [title, content];
    JoinAppend([title], content, "\n\n");
    if suffix != "" {
      JoinAppend([title, content], suffix, "\n\n");
    }
  }

  /** An empty body is left out: no blank line stands for it. */
  lemma EmptyBodyOmitted(title: string, limit: int, suffix: string)
    requires Available(title, limit, suffix) > 0
    ensures TruncateText(title, "", limit, suffix) ==
      title + (if suffix != "" then "\n\n" + suffix else "")
  {
    var available := Available(title, limit, suffix);
    assert Body("", available) == "";
    assert [title] + [] == [title];
    if suffix != "" {
      JoinAppend([title], suffix, "\n\n");
    }
  }

  /** With no room for a body, the title is cut and the whole suffix
      follows `... `; when the slice bound is not negative the result is one
      character short of `limit`. */
  lemma SaturatedKeepsSuffix(title: string, content: string, limit: int, suffix: string)
    requires Available(title, limit, suffix) <= 0
    ensures var r := TruncateText(title, content, limit, suffix);
      var cut := Prefix(title, limit - |suffix| - 5);
      r == cut + "... " + suffix && title[..|cut|] == cut
    ensures limit - |suffix| - 5 >= 0 ==> |TruncateText(title, content, limit, suffix)| == limit - 1
  {
  }

  /** Cutting is idempotent: a body already cut to the budget (or one that
      fit) passes through a second cut unchanged, unless the budget is below
      three characters. */
  lemma BodyIdempotent(content: string, available: int)
    requires available >= 3 || |content| <= available
    requires available > 0
    ensures Body(Body(content, available), available) == Body(content, available)
  {
  }

  // ---------------------------------------------------------- per platform

  /** The Bluesky post: the excerpt within 290 characters, and a link card
      with the title, the first 200 characters of the body and the URL. */
  datatype BlueskyPost = BlueskyPost(text: string, cardTitle: string, cardDescription: string, cardUri: string)

  function BlueskyPostFor(title: string, content: string, url: string): (p: BlueskyPost)
    ensures p.cardTitle == title && p.cardUri == url
    ensures p.cardDescription <= content && |p.cardDescription| == if |content| < CardDescriptionLimit then |content| else CardDescriptionLimit
  {
    BlueskyPost(TruncateText(title, content, BlueskyCharLimit, ""), title, Prefix(content, CardDescriptionLimit), url)
  }

  /** The Bluesky text fits its 290 characters unless a title of 286 or 287
      characters leaves one or two characters for a longer body. */
  lemma BlueskyTextWithinLimit(title: string, content: string, url: string)
    requires !(286 <= |title| <= 287 && |content| > 288 - |title|)
    ensures |BlueskyPostFor(title, content, url).text| <= BlueskyCharLimit
  {
    TruncateWithinLimit(title, content, BlueskyCharLimit, "");
  }

  /** The Mastodon status: the excerpt within the limit less the URL and a
      blank line, then the blank line and the URL. */
  function MastodonStatus(title: string, content: string, url: string): (r: string)
    ensures EndsWith(r, "\n\n" + url)
  {
    TruncateText(title, content, MastodonCharLimit - |url| - 2, "") + "\n\n" + url
  }

  /** Whenever the excerpt respects its reduced limit, the status with the
      URL appended is within Mastodon's 490 characters. */
  lemma MastodonStatusWithinLimit(title: string, content: string, url: string)
    requires NoNegativeSlice(title, content, MastodonCharLimit - |url| - 2, "")
    ensures |MastodonStatus(title, content, url)| <= MastodonCharLimit
  {
    TruncateWithinLimit(title, content, MastodonCharLimit - |url| - 2, "");
  }

  // -------------------------------------------------------------- examples

  /** A title of 11 characters with an empty body and a limit of 20: the
      title alone. */
  lemma TitleOnlyExample()
    ensures TruncateText("Hello World", "", 20, "") == "Hello World"
  {
    EmptyBodyOmitted("Hello World", 20, "");
  }
}
