# hugo-posse, modelled in Dafny

`posse.py` syndicates Hugo blog posts to Bluesky and Mastodon ("publish on
your own site, syndicate elsewhere"). It walks the content tree and queues
every Markdown page whose front matter asks for syndication, has a
`microblog_content` excerpt and is not yet marked `syndicated`. For each
queued page it derives the public URL, checks that the URL answers (unless
`--dry-run` or `--force` is given) and posts a truncated excerpt to every
platform named in `syndicate_to`. When every requested post succeeds, it
rewrites the page's header to record `syndicated = true` (TOML) or
`syndicated: true` (YAML).

The model has six modules, one per concern of the script:

- `PyStr` (`pystr.dfy`) holds the Python semantics the script relies on:
  - slices whose bounds clamp, and negative bounds that count from the end;
  - `strip` over Python's whitespace set;
  - `find` returning -1 when there is no match;
  - `index`, `rfind`, `split` and `join`;
  - errors as a `Result`.
- `UrlResolver` and `UrlExamples` (`url.dfy`): `get_post_url`, with
  `BASE_URL` and the front matter's slug as parameters.
- `Excerpt` (`excerpt.dfy`): `truncate_text`, the Bluesky post and link card,
  and the Mastodon status with its budget reduced by the URL.
- `FrontMatter` (`frontmatter.dfy`):
  - front-matter values with Python truthiness and `in`;
  - the header-block slicing of `parse_frontmatter`, with the TOML and YAML
    loaders passed in as functions.
- `WriteBack` (`writeback.dfy`): `mark_syndicated`. The rewrite loop is a
  method proved equal to a specification function on lines. The loop's test
  for the closing line is a parameter, and the script's test (the line strips
  to the delimiter) is passed in. The content tree is a map from paths to
  texts.
- `Pipeline` (`pipeline.dfy`), the body of `main`:
  - client set-up;
  - the scan loops that build the manifest;
  - the per-page processing: URL check, the results list, the all-true gate;
  - the processing loop that marks files.

  The URL check, each platform's post and the client constructors are
  inputs.

The model keeps the script's behaviour where it is surprising, and states
the consequences:

- Exceptions raised outside any `try` leave the processing loop of `main`
  (posse.py:253-294) and end the run. The reports up to that page stand
  (`Pipeline.ProcessAllReports`). In a manifest that names each file once,
  the file of every page reported Marked before it stays as `mark_syndicated`
  rewrote it (`Pipeline.MarkedPagesRewritten`), which adds the marker only
  when the header has a closing delimiter. There are four kinds:
  - an `IndexError` or `TypeError` from `get_post_url`;
  - a `TypeError` from `"bluesky" in targets` (posse.py:269) when
    `syndicate_to` is null, a boolean, a number, a date or a time
    (`Pipeline.Results`);
  - a `TypeError` from a title or body that is not text;
  - the `NameError` from `truncate_text`.
- `get_post_url` (posse.py:48-82) can produce a doubled slash:
  `content/_index.md` without a slug gives `root//`
  (`UrlExamples.ContentIndexDoubleSlash`).
- `truncate_text` (posse.py:93-115) does not always "fit limits", as its
  docstring says. When the budget for the body is 1 or 2 characters, the
  slice bound `available_chars-3` is negative. The body then keeps all but
  its last one or two characters, and the text exceeds the limit
  (`Excerpt.TruncateOverrun`). The model keeps Python's slice semantics.

`truncate_text` reads a name `forced_suffix` that is bound nowhere (see
Findings). `Excerpt.TruncateTextAsWritten` follows the script's branches and
looks the name up in the function's variables and then in the module's
globals (`Excerpt.LookUp`, `Excerpt.ModuleNames`). `Excerpt.TruncateText`
reads its `suffix` parameter in its place. The rest of the model uses the
repaired function, selected by `Pipeline.Truncation.Repaired`.
`Pipeline.Truncation.AsWritten` keeps the script's behaviour, so that its
consequences can be stated.

## Model

| member | source | states |
|---|---|---|
| PyStr.Clamp | posse.py:64 | a slice bound within the length is kept; a negative one counts from the end, or is 0 when it reaches before the start; a bound past the end is the length |
| PyStr.SeqSlice | posse.py:40 | `s[i:j]` is the range between the two clamped bounds, or empty when they cross |
| PyStr.Prefix | posse.py:105 | `s[:j]` is the prefix of `s` whose length is the clamped bound |
| PyStr.Strip | posse.py:169 | the stripped line is no longer than the line and has no whitespace at either end |
| PyStr.StripTrims | posse.py:180 | `strip` removes only whitespace: the line is the stripped text with whitespace on both sides |
| PyStr.RStripChar | posse.py:54 | `rstrip("/")` is a prefix, only `/` was removed, and it does not end in `/` |
| PyStr.Find | posse.py:39 | `find(sub, 3)` is the first occurrence at or after 3, or -1 when there is none |
| PyStr.IndexOf | posse.py:62 | `index` finds the first matching position, and is None (ValueError) exactly when there is none |
| PyStr.LastIndex | posse.py:79 | the last position of a character, and None exactly when it is absent |
| PyStr.Split | posse.py:58 | `split("/")` yields at least one piece and no piece holds the separator |
| PyStr.JoinSplit | posse.py:57-58 | joining the pieces of a split with the separator gives back the string |
| PyStr.SplitJoin | posse.py:74-80 | splitting a join of separator-free pieces gives back the pieces |
| PyStr.JoinAppend | posse.py:109-115 | appending a part to a non-empty join adds the separator and the part |
| PyStr.ReplaceChar | posse.py:57 | `replace("\\", "/")` keeps the length and changes exactly the backslashes |
| UrlResolver.Root | posse.py:53-54 | the root is the base URL when it is set and non-empty, else `https://example.com`, with all trailing `/` removed |
| UrlResolver.PathParts | posse.py:57-58 | the path's segments: at least one, none holding `/` |
| UrlResolver.BaseName | posse.py:68 | the base name holds no `/`, ends the path, and is preceded by `/` unless it is the whole path |
| UrlResolver.Dirs | posse.py:60-66 | the directories strictly between the first `content` segment and the file name, or `["posts"]` when no segment is `content` |
| UrlResolver.Stem | posse.py:79 | `splitext(name)[0]`: the name is kept whole exactly when every dot in it has only dots before it; otherwise the stem ends just before the last dot and holds a character other than a dot |
| UrlResolver.Segments | posse.py:70-80 | the URL segments; IndexError exactly for an index file with a slug and no directory |
| UrlResolver.PostUrl | posse.py:82 | the URL starts with the root and `/`, ends with `/`, and fails exactly when the segments do |
| UrlResolver.GetPostUrl | posse.py:48-82 | `get_post_url` raises exactly for an `index.md`/`_index.md` file with a slug and no directory to rename; otherwise the URL starts with the root and `/` and ends with `/` |
| UrlResolver.StandardFileSegments | posse.py:76-80 | for a non-index file every directory is kept and one segment is appended: the slug, or the file name without its extension |
| UrlResolver.LeafBundleSegments | posse.py:71-74 | for `index.md`/`_index.md` the file name adds no segment; a slug replaces the last directory and the others are unchanged |
| UrlResolver.SegmentsHaveNoSlash | posse.py:70-80 | no URL segment contains `/` when the path segments and the slug do not |
| UrlResolver.UrlSplitsIntoSegments | posse.py:74-82 | the URL between root and final `/` splits back into exactly the segments, so none is lost, merged or split |
| UrlResolver.PathOfParts | posse.py:57-68 | a path that is its parts joined by `/` splits into those parts and has the last one as base name |
| UrlResolver.BaseNameOfParts | posse.py:68 | the base name of a joined path is its last part |
| UrlResolver.DirsUnderContent | posse.py:62-64 | with `content` first, the directories are the segments between it and the file name |
| UrlExamples.NestedPostExample | posse.py:51 | `content/blog/2025/11/post.md` gives `https://example.com/blog/2025/11/post/` |
| UrlExamples.NestedPostPathExample | posse.py:48-82 | the same, starting from the path string |
| UrlExamples.LeafBundleSlugExample | posse.py:71-74 | `content/blog/index.md` with slug `custom` gives `https://example.com/custom/` |
| UrlExamples.ContentIndexDoubleSlash | posse.py:71-82 | `content/_index.md` under `https://blog.example/` gives `https://blog.example//` |
| UrlExamples.ContentIndexSlugRaises | posse.py:73 | `content/index.md` with a slug raises IndexError |
| UrlExamples.NoContentFallbackExample | posse.py:65-66 | `notes/hello.md` falls back to `https://example.com/posts/hello/` |
| Excerpt.Body | posse.py:102-107 | an empty body stays empty, one that fits is kept, a longer one is cut to `available-3` characters plus `...` |
| Excerpt.TruncateText | posse.py:93-115 | a non-empty suffix always ends the text unshortened, and with room for a body the text starts with the title |
| Excerpt.Available | posse.py:95-97 | the characters left for the body: the limit less the title, the suffix, and a two-character break before the body and before a non-empty suffix |
| Excerpt.LookUp | posse.py:100 | a name read in a function is its local value, else its global value, and NameError exactly when it is bound in neither |
| Excerpt.TruncateTextAsWritten | posse.py:93-115 | the script's `truncate_text`, whose two return paths both look up `forced_suffix`: it raises, and then with NameError, exactly when no global binds that name |
| Excerpt.ForcedSuffixRaises | posse.py:100-113 | in the script's module, which binds no `forced_suffix`, every call raises NameError, whichever return path it takes |
| Excerpt.ForcedSuffixBound | posse.py:93-115 | were `forced_suffix` bound to the call's own suffix, the script's function would return exactly the repaired text |
| Excerpt.TruncateWithinLimit | posse.py:94-115 | the text is at most `limit` long whenever no slice bound is negative |
| Excerpt.TruncateLength | posse.py:95-115 | with room for a body, the length is the title, the body and the suffix with a two-character break before each |
| Excerpt.TruncateOverrun | posse.py:104-105 | with a budget of 1 or 2 and a longer body, the text is exactly `limit` plus the body's length |
| Excerpt.BodyCutToBudget | posse.py:104-105 | a cut body fills the budget exactly and the text starts with title, blank line, body prefix and `...` |
| Excerpt.BodyKeptWhole | posse.py:106-113 | a body that fits sits verbatim between the title and the suffix |
| Excerpt.EmptyBodyOmitted | posse.py:103-111 | an empty body leaves no blank part |
| Excerpt.SaturatedKeepsSuffix | posse.py:99-100 | with no room for a body, the text is the cut title, `... ` and the whole suffix; when the slice bound is not negative it is one short of the limit |
| Excerpt.BodyIdempotent | posse.py:102-107 | cutting an already cut body again changes nothing |
| Excerpt.BlueskyPostFor | posse.py:118-132 | the card carries the title and URL and the body's first 200 characters |
| Excerpt.BlueskyTextWithinLimit | posse.py:124 | the Bluesky text fits 290 characters except for titles of 286-287 characters with a longer body |
| Excerpt.MastodonStatus | posse.py:149-152 | the status ends with a blank line and the URL |
| Excerpt.MastodonStatusWithinLimit | posse.py:149-152 | the status fits 490 characters whenever no slice bound of the excerpt's truncation is negative |
| Excerpt.TitleOnlyExample | posse.py:109-115 | `Hello World` with an empty body and limit 20 is the title alone |
| FrontMatter.Truthy | posse.py:239-243 | None, false, zero and the empty text, list and table are exactly the falsy values |
| FrontMatter.Get | posse.py:240 | `fm.get(key, default)` is the stored value, or the default for a missing key |
| FrontMatter.Contains | posse.py:269 | `in` is list membership, substring or key lookup, and TypeError for any other value |
| FrontMatter.Dialect.Delimiter | posse.py:170 | each delimiter is three characters |
| FrontMatter.Dialect.MarkerLine | posse.py:174 | the marker is a single newline-terminated line starting with `syndicated` |
| FrontMatter.HeaderBlock | posse.py:38-43 | a header block exists exactly when the document opens with `+++` or `---`, and `+++` means TOML |
| FrontMatter.ParseFrontMatter | posse.py:36-46 | TOML documents go to the TOML loader and `---` documents to the YAML loader, each with the sliced block; any other document has no header |
| FrontMatter.ClosedHeaderBlock | posse.py:38-40 | with a closing delimiter the document is delimiter, block, delimiter, rest, and the block holds no delimiter |
| FrontMatter.UnclosedHeaderBlock | posse.py:39-40 | without one, `find` gives -1 and the block is everything after the opening delimiter but the last character |
| WriteBack.DialectOf | posse.py:169-172 | TOML exactly when the first line strips to `+++` |
| WriteBack.ClosesWith | posse.py:180 | a line that passes the closing test is at least as long as the delimiter |
| WriteBack.FindClosing | posse.py:178-180 | the first line at or after the start that passes the closing test (for the script: strips to the delimiter), none before it passes, and None when none passes at all |
| WriteBack.Inserted | posse.py:176-185 | with no closing line after line 0 the lines are unchanged; otherwise one line more, the marker at the closing line's index, the lines before and after it in place |
| WriteBack.WithMarker | posse.py:174-185 | the rewrite adds at most one line and keeps the opening line first |
| WriteBack.InsertMarker | posse.py:176-185 | the rewrite loop's output is the lines with the marker inserted before the first closing line after line 0, or the lines unchanged when there is none |
| WriteBack.InsertionShape | posse.py:177-185 | the insertion adds one line, the marker, at the closing line's index; removing it gives back the lines; the multiset of lines grows by the marker alone |
| WriteBack.MarkerInsertedOnce | posse.py:177-185 | exactly one marker line is added, right before the first closing delimiter after line 0; removing it gives back the lines; the lines are the same multiset plus the marker |
| WriteBack.UnclosedHeaderUnchanged | posse.py:177-185 | with no closing delimiter after line 0 the lines are unchanged |
| WriteBack.HeaderStillCloses | posse.py:174-185 | afterwards the header still opens with the same line and closes at the same delimiter line, one further down |
| WriteBack.MarkerIsNotDelimiter | posse.py:174-180 | the marker line never strips to the delimiter |
| WriteBack.SplitLines | posse.py:166 | `readlines` pieces concatenate back to the text, are non-empty, hold no newline before their last character, and all but the last end in a newline |
| WriteBack.Concat | posse.py:176-185 | writing no lines writes nothing, and the written text starts with the first line |
| WriteBack.MarkSyndicated | posse.py:162-189 | only the marked page's file can change, and no file appears or disappears |
| WriteBack.MarkFile | posse.py:162-189 | the imperative rewrite equals `MarkSyndicated` |
| WriteBack.MarkedTextInsertsMarker | posse.py:162-189 | an empty file or one whose header never closes is left unchanged; otherwise the marker of the dialect named by the first line is written at the offset where the closing delimiter's line starts, just after a newline, and no other character changes |
| WriteBack.InsertedAfterNewline | posse.py:176-189 | inserting a line before any line but the first of a text puts it right after a newline of the text, at the offset where that line started, and the text is otherwise unchanged |
| Pipeline.InitClients | posse.py:199-225 | the run exits exactly when it is not a dry run and neither platform has credentials; a client exists exactly for a platform with credentials whose client object was made |
| Pipeline.PathJoin | posse.py:233 | an absolute name replaces the directory; otherwise one `/` separates the two, unless the directory is empty or already ends with `/`; a slash-free name is the joined path's base name |
| Pipeline.Queued | posse.py:239-245 | a queued header has a truthy `microblog_content` and a missing or falsy `syndicated` |
| Pipeline.ScanFile | posse.py:231-247 | a file is queued exactly when it is a readable `.md` file whose header is a non-empty mapping with `syndicate_to`, a falsy `syndicated` and a truthy `microblog_content` |
| Pipeline.FileVerdicts | posse.py:231-247 | one verdict per file of a directory, each the scan of that file |
| Pipeline.Scan | posse.py:227-249 | the scanning loops build the manifest of every directory and file in walk order |
| Pipeline.ScanWalkMembers | posse.py:230-247 | a page is in the manifest exactly when the scan of one directory queues it |
| Pipeline.ScanFilesMembers | posse.py:231-247 | a directory's scan queues a page exactly when one of its files does |
| Pipeline.FlattenMembers | posse.py:247 | a page is among the appended ones exactly when some file's verdict queues it |
| Pipeline.ManifestQueued | posse.py:232-247 | every manifest entry is a readable `.md` file whose parsed header passes the test and is the entry's header |
| Pipeline.TextOf | posse.py:96 | a title or body that is not text raises TypeError |
| Pipeline.UrlFor | posse.py:72-80 | a falsy slug means no slug, a text slug is used, any other truthy slug raises |
| Pipeline.ExcerptLimit | posse.py:124-150 | no budget exceeds 490, and Mastodon's leaves room for the URL and a blank line |
| Pipeline.ExcerptText | posse.py:124-150 | the script's excerpt, in the script's module, raises NameError; the repaired one is `TruncateText` at the platform's budget |
| Pipeline.Publish | posse.py:118-160 | as written every post attempt raises NameError; repaired, it is the platform's verdict on the Bluesky post or the Mastodon status |
| Pipeline.Try | posse.py:269-285 | a requested platform yields true in a dry run, false with no client, otherwise the post's outcome; a post is sent exactly outside a dry run with a client |
| Pipeline.TryIfRequested | posse.py:269-276 | an unrequested platform adds nothing, a requested one adds its result |
| Pipeline.Results | posse.py:266-285 | at most two results, each the outcome for its platform; a `syndicate_to` that is not a list, a string or a table raises TypeError |
| Pipeline.AllOk | posse.py:288 | `all(results)` holds for the empty list, and exactly when every result is true |
| Pipeline.Gate | posse.py:287-294 | marked exactly outside a dry run with a non-empty all-true list, would-mark for the same in a dry run, partial failure exactly outside a dry run with a false result |
| Pipeline.ProcessItem | posse.py:254-294 | an unreachable page is skipped with no attempt, only outside a dry run and force mode; otherwise the verdict is the gate's |
| Pipeline.CollectResults | posse.py:266-285 | the appended results list equals `Results` |
| Pipeline.ProcessOne | posse.py:254-294 | the imperative per-page step equals `ProcessItem` |
| Pipeline.Outcomes | posse.py:253-294 | one outcome per manifest entry, each the processing of that entry on its own |
| Pipeline.Continue | posse.py:253-294 | the rest of the run keeps the reports so far as a prefix and neither adds nor removes a file |
| Pipeline.ProcessAll | posse.py:253-294 | the processing of the manifest neither adds nor removes a file |
| Pipeline.ProcessAllReports | posse.py:253-294 | the reports are those of the first pages in manifest order, one for every page unless an exception stops the run, and that exception is the one the next page raised |
| Pipeline.ContinueReports | posse.py:253-294 | from any page on, the reports added are those of the following pages up to the first exception, which is the one the run ends with |
| Pipeline.ContinueUnmarked | posse.py:287-292 | when no remaining page is reported marked, the rest of the run leaves every file as it was |
| Pipeline.ContinueOnlyMarked | posse.py:287-292 | a file the rest of the run changes was named by a report marked after that point |
| Pipeline.Advance | posse.py:287-292 | a page reported Marked has its file rewritten by `mark_syndicated`; every other file, and every file of a page reported otherwise, is kept |
| Pipeline.ContinueKeeps | posse.py:287-292 | a file that no remaining marked report names is left as it was by the rest of the run |
| Pipeline.ContinueMarks | posse.py:287-292 | when the run reaches a page reported Marked, and no other marked page names its file, that file ends the run rewritten with the marker |
| Pipeline.ContinueRewritesMarked | posse.py:253-294 | with distinct pages, each reported page's file ends the run as `mark_syndicated` leaves it when the page was reported Marked, and as it was otherwise |
| Pipeline.MarkedPagesRewritten | posse.py:253-294 | in a manifest naming each file once, a page reported Marked has the marker written into its file and a page reported otherwise keeps its file, even when a later page ends the run |
| Pipeline.ProcessManifest | posse.py:253-294 | the processing loop equals `ProcessAll` |
| Pipeline.DryRunChangesNothing | posse.py:260-292 | a dry run sends no post and leaves every file as it was |
| Pipeline.NothingSentInDryRun | posse.py:269-281 | in a dry run every result is true and none is sent, and nothing is marked |
| Pipeline.AsWrittenNeverSends | posse.py:269-285 | with the script's `truncate_text` no post is ever sent and no page is marked |
| Pipeline.TryAsWritten | posse.py:269-285 | with the script's `truncate_text` a platform's attempt is never sent, and outside a dry run it never succeeds |
| Pipeline.AsWrittenChangesNothing | posse.py:287-292 | with the script's `truncate_text` no file is ever rewritten |
| Pipeline.OnlyMarkedPagesChange | posse.py:287-292 | a file changes only if its page was reported marked |
| Pipeline.UnreachableSkipped | posse.py:260-264 | outside dry-run and force mode, an unreachable URL skips the page before any target is tried |
| Pipeline.TryRepaired | posse.py:269-285 | with a text title and body, a requested platform yields true in a dry run, false without a client, else whether the post was accepted |
| Pipeline.ResultsOf | posse.py:266-285 | the results are Bluesky's then Mastodon's, each present exactly when requested |
| Pipeline.AllOkOfTwo | posse.py:288 | `all(results)` over the optional two results holds exactly when each present result is true |
| Pipeline.MarkedExactlyWhenAllPostsSucceed | posse.py:260-292 | a page is marked exactly when not in dry run, the URL check passed or was forced, some platform was requested, and every requested platform had a client and accepted the post |
| Pipeline.PartialFailureNotMarked | posse.py:288-294 | Bluesky accepting and Mastodon refusing gives exactly a report of a sent true Bluesky result and a sent false Mastodon result with a partial-failure verdict, and leaves the file unmarked |
| Pipeline.PartialFailureReport | posse.py:266-294 | the same report for the page on its own |
| Pipeline.Syndicate | posse.py:191-294 | the run exits exactly when the client set-up does |
| Pipeline.NoCredentialsExits | posse.py:202-208 | with no credentials outside a dry run the run exits before reading any page |
| Pipeline.DryRunLeavesFiles | posse.py:224-292 | a dry run always gets past set-up and leaves every file as it was |
| Pipeline.RunSyndication | posse.py:191-294 | set-up, scan and processing as methods equal `Syndicate` with the repaired excerpt |

## Left out

- The network is not modelled; each call is an input:
  - `verify_url_accessible` (posse.py:84-91) is the function `Env.reachable`;
  - `send_post` and `status_post` are `Env.postBluesky` and `Env.postMastodon`, which return false for a failure the script catches;
  - a client constructor that raises is an input flag.
- The TOML and YAML loaders are inputs. They return a mapping or nothing. A
  YAML document whose top level is a list or a string is not modelled. The
  script queues no such page either way: `"syndicate_to" in fm` is false
  unless that string is an element or a substring, and then `fm.get` raises
  inside the scan's `try` (posse.py:233-250), which catches it.
- `os.path.normpath` is not modelled. Paths are taken as already
  normalised, so `..`, `.` and repeated separators are not resolved.
- `os.walk` order and the filesystem are inputs. The walk is a given
  sequence of directories, and files are texts in a map. A file that cannot
  be read is a path missing from the map. These are left out:
  - encoding;
  - universal-newline translation of `\r\n`;
  - a write that fails part-way through a rewrite.
- Logging, `print`, argparse, dotenv and the warnings filters are not
  modelled. `sys.exit(1)` is the `Exit` outcome.
- Character counts are code points (`len`). Platform-side grapheme counting
  is not modelled.
- Front-matter values are modelled only in part:
  - floats, dates and times only through their truthiness;
  - nested tables only through their keys.
- Pipeline.TextOf: a title or body that is not text is modelled as raising
  TypeError before the excerpt is built. Python raises this only for values
  without a `len`, and in some branches reaches the NameError first; a list
  body would be formatted into the post.
- The log-only title lookup at posse.py:255 is not modelled.
- Running the script twice does not re-post a marked page: it is not
  stated. Whether the marker line is read back as `syndicated` depends on
  the TOML/YAML loader, which is an input here.

## Findings

| source | as written | input that shows it | evidently intended | confidence | as-written member | corrected member |
|---|---|---|---|---|---|---|
| posse.py:100 | both return paths of `truncate_text` read `forced_suffix`, a name defined nowhere, so every call raises NameError outside the posting functions' `try`; the first page that would be posted ends the run, and no page is ever posted or marked | any call, e.g. `truncate_text("T", "body", 290)` from `syndicate_to_bluesky` | read the `suffix` parameter | high; not executed | Excerpt.ForcedSuffixRaises | Excerpt.TruncateWithinLimit |
