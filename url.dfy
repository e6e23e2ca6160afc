/** How the script derives a post's public URL from its path under the
    Hugo content tree (`get_post_url`). */
module UrlResolver {
  import opened PyStr

  /** The site root used when no base URL is configured. */
  const DefaultRoot: string := "https://example.com"

  /** The configured base URL if it is set and non-empty, else the default,
      with every trailing `/` removed. */
  function Root(baseUrl: Option<string>): (r: string)
    ensures r == [] || r[|r| - 1] != '/'
    ensures baseUrl.Some? && baseUrl.value != "" ==>
      r <= baseUrl.value && forall i :: |r| <= i < |baseUrl.value| ==> baseUrl.value[i] == '/'
    ensures !(baseUrl.Some? && baseUrl.value != "") ==> r == DefaultRoot
  {
    RStripChar(if baseUrl.Some? && baseUrl.value != "" then baseUrl.value else DefaultRoot, '/')
  }

  /** The path's segments once backslashes are read as `/` (the path is taken
      as already normalised). */
  function PathParts(filepath: string): (r: seq<string>)
    ensures |r| >= 1 && forall x :: x in r ==> '/' !in x
  {
    Split(ReplaceChar(filepath, '\\', '/'), '/')
  }

  /** `os.path.basename` on a POSIX system: everything after the last `/`. */
  function BaseName(filepath: string): (r: string)
    ensures '/' !in r
    ensures EndsWith(filepath, r)
    ensures |r| < |filepath| ==> filepath[|filepath| - |r| - 1] == '/'
  {
    match LastIndex(filepath, '/')
    case None => filepath
    case Some(i) => filepath[i + 1..]
  }

  /** The directories that become URL segments: those strictly after the
      first `content` segment and before the file name, or `["posts"]` when
      no segment is `content`. */
  function Dirs(parts: seq<string>): (r: seq<string>)
    requires |parts| >= 1
    ensures "content" !in parts ==> r == ["posts"]
    ensures forall k {:trigger parts[k]} ::
              (0 <= k < |parts| && parts[k] == "content" && forall j :: 0 <= j < k ==> parts[j] != "content") ==>
              r == if k + 1 < |parts| then parts[k + 1..|parts| - 1] else []
    ensures forall x :: x in r ==> x == "posts" || x in parts
  {
    match IndexOf(parts, "content")
    case None => ["posts"]
    case Some(k) => SeqSlice(parts, k + 1, -1)
  }

  /** `os.path.splitext(name)[0]`: the name up to its last dot, unless only
      dots precede that dot (a leading-dot name has no extension). */
  function Stem(name: string): (r: string)
    ensures r <= name
    ensures r == name || exists d :: 0 <= d < |name| && r == name[..d] && name[d] == '.'
    ensures '.' !in name ==> r == name
    ensures r != name ==> name[|r|] == '.' && '.' !in name[|r| + 1..] && exists i :: 0 <= i < |r| && r[i] != '.'
    ensures r == name <==> forall d :: 0 <= d < |name| && name[d] == '.' ==> forall i :: 0 <= i < d ==> name[i] == '.'
  {
    match LastIndex(name, '.')
    case None => name
    case Some(d) =>
      if exists i :: 0 <= i < d && name[i] != '.' then
        name[..d]
      else name
  }

  /** A Hugo leaf bundle or section index: its directory names the page. */
  predicate IsLeafBundle(filename: string) {
    filename == "index.md" || filename == "_index.md"
  }

  /** The front matter's `slug` is truthy. */
  predicate HasSlug(slug: Option<string>) {
    slug.Some? && slug.value != ""
  }

  /** The URL path segments for a path split into `parts` whose file name
      is `filename`, or the IndexError that `dirs[-1] = slug` raises for a
      leaf bundle with no directory left to rename. */
  function Segments(parts: seq<string>, filename: string, slug: Option<string>): (r: Result<seq<string>>)
    requires |parts| >= 1
    ensures r.Err? <==> IsLeafBundle(filename) && HasSlug(slug) && Dirs(parts) == []
    ensures r.Err? ==> r.error == IndexError
  {
    var dirs := Dirs(parts);
    if IsLeafBundle(filename) then
      if HasSlug(slug) then
        if dirs == [] then Err(IndexError)
        else Ok(dirs[..|dirs| - 1] + [slug.value])
      else Ok(dirs)
    else
      Ok(dirs + [if HasSlug(slug) then slug.value else Stem(filename)])
  }

  /** The URL for a path given as its segments: the root, `/`, the URL
      segments joined by `/`, and a final `/`. */
  function PostUrl(baseUrl: Option<string>, parts: seq<string>, filename: string, slug: Option<string>): (r: Result<string>)
    requires |parts| >= 1
    ensures r.Err? <==> Segments(parts, filename, slug).Err?
    ensures r.Ok? ==> StartsWith(r.value, Root(baseUrl) + "/") && EndsWith(r.value, "/")
  {
    var segments :- Segments(parts, filename, slug);
    Ok(Root(baseUrl) + "/" + Join(segments, "/") + "/")
  }

  /** `get_post_url(filepath, frontmatter)` with the base URL and the front
      matter's slug passed in. */
  function GetPostUrl(baseUrl: Option<string>, filepath: string, slug: Option<string>): (r: Result<string>)
    ensures r.Err? <==> IsLeafBundle(BaseName(filepath)) && HasSlug(slug) && Dirs(PathParts(filepath)) == []
    ensures r.Ok? ==> StartsWith(r.value, Root(baseUrl) + "/") && EndsWith(r.value, "/")
  {
    PostUrl(baseUrl, PathParts(filepath), BaseName(filepath), slug)
  }

  // ------------------------------------------------------------ properties

  /** For a file that is not an index, every directory is kept and one last
      segment is added: the slug, or the file name without its extension. */
  lemma StandardFileSegments(parts: seq<string>, filename: string, slug: Option<string>)
    requires |parts| >= 1 && !IsLeafBundle(filename)
    ensures Segments(parts, filename, slug).Ok?
    ensures var segs := Segments(parts, filename, slug).value;
      |segs| == |Dirs(parts)| + 1 && segs[..|Dirs(parts)|] == Dirs(parts) &&
      segs[|Dirs(parts)|] == if HasSlug(slug) then slug.value else Stem(filename)
  {
  }

  /** For an index file, the file name adds no segment; a slug replaces the
      last directory and leaves every other directory as it was. */
  lemma LeafBundleSegments(parts: seq<string>, filename: string, slug: Option<string>)
    requires |parts| >= 1 && IsLeafBundle(filename)
    requires Segments(parts, filename, slug).Ok?
    ensures var segs := Segments(parts, filename, slug).value;
      var dirs := Dirs(parts);
      |segs| == |dirs| &&
      (forall i :: 0 <= i < |dirs| - 1 ==> segs[i] == dirs[i]) &&
      (|dirs| > 0 ==> segs[|dirs| - 1] == if HasSlug(slug) then slug.value else dirs[|dirs| - 1])
  {
  }

  /** No URL segment contains `/` when the path's segments and the slug do not. */
  lemma SegmentsHaveNoSlash(parts: seq<string>, filename: string, slug: Option<string>)
    requires |parts| >= 1 && Segments(parts, filename, slug).Ok?
    requires forall x :: x in parts ==> '/' !in x
    requires '/' !in filename
    requires slug.Some? ==> '/' !in slug.value
    ensures forall x :: x in Segments(parts, filename, slug).value ==> '/' !in x
  {
    assert forall x :: x in Dirs(parts) ==> '/' !in x;
    assert '/' !in Stem(filename) by {
      assert Stem(filename) <= filename;
    }
  }

  /** The URL's path between the root and the final `/` splits back into
      exactly the derived segments, so no segment is lost, merged or split,
      provided the slug holds no `/` and at least one segment remains. */
  lemma {:induction false} UrlSplitsIntoSegments(baseUrl: Option<string>, filepath: string, slug: Option<string>)
    requires GetPostUrl(baseUrl, filepath, slug).Ok?
    requires Segments(PathParts(filepath), BaseName(filepath), slug).value != []
    requires slug.Some? ==> '/' !in slug.value
    ensures var url := GetPostUrl(baseUrl, filepath, slug).value;
      var root := Root(baseUrl);
      |root| + 2 <= |url| &&
      Split(url[|root| + 1..|url| - 1], '/') == Segments(PathParts(filepath), BaseName(filepath), slug).value
  {
    var url := GetPostUrl(baseUrl, filepath, slug).value;
    var root := Root(baseUrl);
    var segs := Segments(PathParts(filepath), BaseName(filepath), slug).value;
    SegmentsHaveNoSlash(PathParts(filepath), BaseName(filepath), slug);
    assert url[|root| + 1..|url| - 1] == Join(segs, "/");
    SplitJoin(segs, '/');
  }

  /** The path handed in splits into `parts` and has the last one as its base
      name when it is those parts joined by `/` and holds no backslash. */
  lemma PathOfParts(parts: seq<string>)
    requires |parts| >= 1
    requires forall k :: 0 <= k < |parts| ==> '/' !in parts[k]
    requires '\\' !in Join(parts, "/")
    ensures PathParts(Join(parts, "/")) == parts
    ensures BaseName(Join(parts, "/")) == parts[|parts| - 1]
  {
    var path := Join(parts, "/");
    SplitJoin(parts, '/');
    assert ReplaceChar(path, '\\', '/') == path;
    BaseNameOfParts(parts);
  }

  lemma BaseNameOfParts(parts: seq<string>)
    requires |parts| >= 1
    requires forall k :: 0 <= k < |parts| ==> '/' !in parts[k]
    ensures BaseName(Join(parts, "/")) == parts[|parts| - 1]
  {
    var n := |parts|;
    var last := parts[n - 1];
    assert '/' !in last;
    if n == 1 {
      assert Join(parts, "/") == last;
    } else {
      var init := parts[..n - 1];
      DropLast(parts);
      JoinAppend(init, last, "/");
      AfterLastSlash(Join(init, "/"), last);
    }
  }

  /** A sequence is its prefix without the last element, then that element. */
  lemma DropLast<T>(s: seq<T>)
    requires |s| >= 1
    ensures s[..|s| - 1] + [s[|s| - 1]] == s
  {
  }

  /** The base name of `a/b` is `b` when `b` holds no `/`. */
  lemma AfterLastSlash(a: string, b: string)
    requires '/' !in b
    ensures BaseName(a + "/" + b) == b
  {
    var path := a + "/" + b;
    assert path[|a|] == '/';
    forall k | |a| < k < |path| ensures path[k] != '/' {
      assert path[k] == b[k - |a| - 1];
    }
    assert LastIndex(path, '/') == Some(|a|);
    assert path[|a| + 1..] == b;
  }

  /** When the first segment is `content`, the directories are the segments
      between it and the file name. */
  lemma DirsUnderContent(parts: seq<string>)
    requires |parts| >= 2 && parts[0] == "content"
    ensures Dirs(parts) == parts[1..|parts| - 1]
  {
    assert IndexOf(parts, "content") == Some(0);
    assert Clamp(-1, |parts|) == |parts| - 1;
  }
}

/** Worked examples of URL derivation. */
module UrlExamples {
  import opened PyStr
  import opened UrlResolver

  /** Once the segments and their join are known, the URL is the root with
      the joined path between two slashes. */
  lemma UrlOfSegments(baseUrl: Option<string>, parts: seq<string>, filename: string, slug: Option<string>,
                      segs: seq<string>, path: string)
    requires |parts| >= 1
    requires Segments(parts, filename, slug) == Ok(segs)
    requires Join(segs, "/") == path
    ensures PostUrl(baseUrl, parts, filename, slug) == Ok(Root(baseUrl) + ("/" + path + "/"))
  {
    Around(Root(baseUrl), path);
  }

  lemma Around(root: string, path: string)
    ensures root + "/" + path + "/" == root + ("/" + path + "/")
  {
  }

  /** `content/blog/2025/11/post.md`: a nested post keeps its directories. */
  lemma NestedPostExample(parts: seq<string>)
    requires parts == ["content", "blog", "2025", "11", "post.md"]
    ensures PostUrl(None, parts, "post.md", None) == Ok(DefaultRoot + "/blog/2025/11/post/")
  {
    NestedPostSegments(parts);
    NestedPostUrlPath();
    UrlOfSegments(None, parts, "post.md", None, ["blog", "2025", "11", "post"], "blog/2025/11/post");
    NestedPostSlashes();
  }

  lemma NestedPostSegments(parts: seq<string>)
    requires parts == ["content", "blog", "2025", "11", "post.md"]
    ensures Segments(parts, "post.md", None) == Ok(["blog", "2025", "11", "post"])
  {
    DirsUnderContent(parts);
    assert Dirs(parts) == ["blog", "2025", "11"];
    assert Stem("post.md") == "post" by {
      assert LastIndex("post.md", '.') == Some(4);
    }
    assert Segments(parts, "post.md", None) == Ok(Dirs(parts) + [Stem("post.md")]);
    assert Dirs(parts) + [Stem("post.md")] == ["blog", "2025", "11", "post"];
  }

  lemma NestedPostUrlPath()
    ensures Join(["blog", "2025", "11", "post"], "/") == "blog/2025/11/post"
  {
    var p := ["blog", "2025", "11", "post"];
    calc {
      Join(p, "/");
      "blog" + "/" + Join(p[1..], "/");
      { assert p[1..][1..] == p[2..]; }
      "blog" + "/" + ("2025" + "/" + Join(p[2..], "/"));
      { assert p[2..][1..] == p[3..]; }
      "blog" + "/" + ("2025" + "/" + ("11" + "/" + "post"));
      "blog/2025/11/post";
    }
  }

  lemma NestedPostSlashes()
    ensures "/" + "blog/2025/11/post" + "/" == "/blog/2025/11/post/"
  {
  }

  /** The same example from the path string itself. */
  lemma NestedPostPathExample(path: string)
    requires path == "content/blog/2025/11/post.md"
    ensures GetPostUrl(None, path, None) == Ok(DefaultRoot + "/blog/2025/11/post/")
  {
    var parts := ["content", "blog", "2025", "11", "post.md"];
    NestedPostPath(path);
    NestedPostExample(parts);
  }

  lemma NestedPostPath(path: string)
    requires path == "content/blog/2025/11/post.md"
    ensures PathParts(path) == ["content", "blog", "2025", "11", "post.md"]
    ensures BaseName(path) == "post.md"
  {
    var parts := ["content", "blog", "2025", "11", "post.md"];
    NestedPostJoin();
    assert '\\' !in path;
    PathOfParts(parts);
  }

  lemma NestedPostJoin()
    ensures Join(["content", "blog", "2025", "11", "post.md"], "/") == "content/blog/2025/11/post.md"
  {
    var p := ["content", "blog", "2025", "11", "post.md"];
    calc {
      Join(p, "/");
      "content" + "/" + Join(p[1..], "/");
      { assert p[1..][1..] == p[2..]; }
      "content" + "/" + ("blog" + "/" + Join(p[2..], "/"));
      { assert p[2..][1..] == p[3..]; }
      "content" + "/" + ("blog" + "/" + ("2025" + "/" + Join(p[3..], "/")));
      { assert p[3..][1..] == p[4..]; }
      "content" + "/" + ("blog" + "/" + ("2025" + "/" + ("11" + "/" + "post.md")));
      "content/blog/2025/11/post.md";
    }
  }

  /** `content/blog/index.md` with slug `custom` is published under the slug. */
  lemma LeafBundleSlugExample(parts: seq<string>)
    requires parts == ["content", "blog", "index.md"]
    ensures PostUrl(None, parts, "index.md", Some("custom")) == Ok(DefaultRoot + "/custom/")
  {
    DirsUnderContent(parts);
    assert Dirs(parts) == ["blog"];
    assert IsLeafBundle("index.md") && HasSlug(Some("custom"));
    assert Segments(parts, "index.md", Some("custom")) == Ok(Dirs(parts)[..0] + ["custom"]);
    assert Dirs(parts)[..0] + ["custom"] == ["custom"];
    UrlOfSegments(None, parts, "index.md", Some("custom"), ["custom"], "custom");
    CustomSlashes();
  }

  lemma CustomSlashes()
    ensures "/" + "custom" + "/" == "/custom/"
  {
  }

  /** `content/_index.md` without a slug has an empty URL path, so its URL
      ends in a doubled slash. */
  lemma ContentIndexDoubleSlash(parts: seq<string>)
    requires parts == ["content", "_index.md"]
    ensures PostUrl(Some("https://blog.example/"), parts, "_index.md", None) == Ok("https://blog.example//")
  {
    DirsUnderContent(parts);
    assert Dirs(parts) == [];
    assert IsLeafBundle("_index.md") && !HasSlug(None);
    assert Segments(parts, "_index.md", None) == Ok([]);
    UrlOfSegments(Some("https://blog.example/"), parts, "_index.md", None, [], "");
    BlogRoot();
  }

  lemma BlogRoot()
    ensures Root(Some("https://blog.example/")) + ("/" + "" + "/") == "https://blog.example//"
  {
    assert Root(Some("https://blog.example/")) == "https://blog.example";
  }

  /** `content/index.md` with a slug raises IndexError: no directory to rename. */
  lemma ContentIndexSlugRaises(parts: seq<string>)
    requires parts == ["content", "index.md"]
    ensures PostUrl(None, parts, "index.md", Some("home")) == Err(IndexError)
  {
    DirsUnderContent(parts);
    assert Dirs(parts) == [];
    assert IsLeafBundle("index.md") && HasSlug(Some("home"));
    assert Segments(parts, "index.md", Some("home")) == Err(IndexError);
  }

  /** `notes/hello.md` has no `content` segment and falls back to `posts/`. */
  lemma NoContentFallbackExample(parts: seq<string>)
    requires parts == ["notes", "hello.md"]
    ensures PostUrl(None, parts, "hello.md", None) == Ok(DefaultRoot + "/posts/hello/")
  {
    assert Dirs(parts) == ["posts"];
    HelloStem();
    assert !IsLeafBundle("hello.md");
    assert Segments(parts, "hello.md", None) == Ok(Dirs(parts) + [Stem("hello.md")]);
    assert Dirs(parts) + [Stem("hello.md")] == ["posts", "hello"];
    PostsHello();
    UrlOfSegments(None, parts, "hello.md", None, ["posts", "hello"], "posts/hello");
  }

  lemma HelloStem()
    ensures Stem("hello.md") == "hello"
  {
    assert LastIndex("hello.md", '.') == Some(5);
    assert "hello.md"[0] != '.';
  }

  lemma PostsHello()
    ensures Join(["posts", "hello"], "/") == "posts/hello"
    ensures "/" + "posts/hello" + "/" == "/posts/hello/"
  {
  }
}
