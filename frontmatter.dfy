/** The front matter of a Hugo page: the values the script reads from it,
    Python truthiness and membership over them, and how the header block is
    found and cut out before a TOML or YAML loader parses it
    (`parse_frontmatter`). The loaders themselves are given as functions. */
module FrontMatter {
  import opened PyStr

  /** A value of the parsed front matter, as the TOML and YAML loaders
      return it. A nested table is seen through its keys; floats, dates and
      times only through their truthiness. */
  datatype Value =
    | Null
    | Bool(b: bool)
    | Int(i: int)
    | Str(s: string)
    | List(items: seq<Value>)
    | Table(keys: set<string>)
    | Scalar(truthy: bool)

  /** A parsed header: a mapping from keys to values. */
  type Header = map<string, Value>

  /** Python truthiness: None, false, zero and the empty text, list and
      table are the falsy values. */
  function Truthy(v: Value): (b: bool)
    ensures !b <==> v in {Null, Bool(false), Int(0), Str(""), List([]), Table({}), Scalar(false)}
  {
    match v
    case Null => false
    case Bool(b) => b
    case Int(i) => i != 0
    case Str(s) => s != ""
    case List(items) => items != []
    case Table(keys) => keys != {}
    case Scalar(t) => t
  }

  /** `fm.get(key, default)`. */
  function Get(fm: Header, key: string, default: Value): (v: Value)
    ensures key in fm ==> v == fm[key]
    ensures key !in fm ==> v == default
  {
    if key in fm then fm[key] else default
  }

  /** `name in container` for a string `name`: list membership, substring or
      key lookup; any other value is not iterable and raises TypeError. */
  function Contains(container: Value, name: string): (r: Result<bool>)
    ensures r.Err? <==> !(container.List? || container.Str? || container.Table?)
    ensures r.Err? ==> r.error == TypeError
    ensures container.List? ==> r == Ok(exists i :: 0 <= i < |container.items| && container.items[i] == Str(name))
    ensures container.Str? ==> r == Ok(IsSubstring(name, container.s))
    ensures container.Table? ==> r == Ok(name in container.keys)
  {
    match container
    case List(items) => Ok(Str(name) in items)
    case Str(s) => Ok(IsSubstring(name, s))
    case Table(keys) => Ok(name in keys)
    case _ => Err(TypeError)
  }

  // ------------------------------------------------------------- dialects

  /** The two header dialects: TOML between `+++` lines, YAML between `---`
      lines, each with its own syntax for the syndicated marker. */
  datatype Dialect = Toml | Yaml {
    function Delimiter(): (d: string)
      ensures |d| == 3
    {
      if Toml? then "+++" else "---"
    }

    /** The marker is one line of its own, naming the `syndicated` key. */
    function MarkerLine(): (m: string)
      ensures m != "" && m[|m| - 1] == '\n' && '\n' !in m[..|m| - 1]
      ensures StartsWith(m, "syndicated")
    {
      if Toml? then "syndicated = true\n" else "syndicated: true\n"
    }
  }

  /** The TOML and YAML loaders: the parsed mapping, or None where the loader
      raises or the document is empty. */
  datatype Parsers = Parsers(toml: string -> Option<Header>, yaml: string -> Option<Header>)

  /** The dialect a document opens with and the text handed to its loader:
      from after the opening delimiter up to the next occurrence of the
      delimiter, found with `str.find` from index 3. When there is none,
      `find` answers -1 and the slice `[3:-1]` drops the last character. */
  function HeaderBlock(content: string): (r: Option<(Dialect, string)>)
    ensures r.Some? <==> StartsWith(content, "+++") || StartsWith(content, "---")
    ensures r.Some? ==> StartsWith(content, r.value.0.Delimiter())
    ensures StartsWith(content, "+++") ==> r.Some? && r.value.0 == Toml
  {
    if StartsWith(content, "+++") then
      Some((Toml, SeqSlice(content, 3, Find(content, "+++", 3))))
    else if StartsWith(content, "---") then
      Some((Yaml, SeqSlice(content, 3, Find(content, "---", 3))))
    else None
  }

  /** `parse_frontmatter`: the loader's answer for the header block, or None
      for a document that opens with neither delimiter. */
  function ParseFrontMatter(content: string, parsers: Parsers): (r: Option<Header>)
    ensures HeaderBlock(content).None? ==> r.None?
    ensures StartsWith(content, "+++") ==> r == parsers.toml(HeaderBlock(content).value.1)
    ensures !StartsWith(content, "+++") && StartsWith(content, "---") ==> r == parsers.yaml(HeaderBlock(content).value.1)
  {
    match HeaderBlock(content)
    case None => None
    case Some((dialect, text)) =>
      if dialect == Toml then parsers.toml(text) else parsers.yaml(text)
  }

  // ------------------------------------------------------------ properties

  /** With a closing delimiter, the document is the opening delimiter, the
      header text, the closing delimiter and the rest; the header text holds
      no complete delimiter. */
  lemma ClosedHeaderBlock(content: string)
    requires HeaderBlock(content).Some?
    requires var d := HeaderBlock(content).value.0.Delimiter(); Find(content, d, 3) != -1
    ensures var (dialect, text) := HeaderBlock(content).value;
      var d := dialect.Delimiter();
      var e := Find(content, d, 3);
      content == d + text + d + content[e + 3..] &&
      forall i :: 0 <= i && i + 3 <= |text| ==> !OccursAt(text, d, i)
  {
    var (dialect, text) := HeaderBlock(content).value;
    var d := dialect.Delimiter();
    var e := Find(content, d, 3);
    assert text == content[3..e];
    FourPieces(content, e);
    NoneBetween(content, d, e);
  }

  lemma FourPieces(s: string, e: nat)
    requires 3 <= e && e + 3 <= |s|
    ensures s == s[..3] + s[3..e] + s[e..e + 3] + s[e + 3..]
  {
    assert s[..3] + s[3..e] + s[e..e + 3] + s[e + 3..] == s[..e + 3] + s[e + 3..];
  }

  /** No occurrence of `d` starting strictly inside `s[3..e]` (in `s`) means
      none inside the slice itself. */
  lemma NoneBetween(s: string, d: string, e: nat)
    requires |d| == 3 && 3 <= e <= |s|
    requires forall j :: 3 <= j < e ==> !OccursAt(s, d, j)
    ensures forall i :: 0 <= i && i + 3 <= |s[3..e]| ==> !OccursAt(s[3..e], d, i)
  {
    forall i | 0 <= i && i + 3 <= |s[3..e]| ensures !OccursAt(s[3..e], d, i) {
      assert !OccursAt(s, d, i + 3);
      assert s[3..e][i..i + 3] == s[i + 3..i + 6];
    }
  }

  /** Without a closing delimiter, the loader is handed everything after the
      opening delimiter except the document's last character. */
  lemma UnclosedHeaderBlock(content: string)
    requires HeaderBlock(content).Some?
    requires var d := HeaderBlock(content).value.0.Delimiter(); Find(content, d, 3) == -1
    ensures var text := HeaderBlock(content).value.1;
      text == if |content| > 4 then content[3..|content| - 1] else ""
  {
  }
}
