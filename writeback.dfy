/** Recording a successful syndication in the page itself
    (`mark_syndicated`): the file's lines are copied through, with one
    `syndicated` line inserted just before the line that closes the header. */
module WriteBack {
  import opened PyStr
  import opened FrontMatter

  /** The content tree as the script sees it: file paths and their texts. */
  type Disk = map<string, string>

  /** The header dialect of a file, from its first line: TOML when that line
      strips to `+++`, YAML otherwise. */
  function DialectOf(firstLine: string): (d: Dialect)
    ensures d == Toml <==> Strip(firstLine) == "+++"
  {
    if Strip(firstLine) == "+++" then Toml else Yaml
  }

  /** The test the rewrite loop applies to each line: `line.strip() == delim`. */
  function ClosesWith(delim: string): (closes: string -> bool)
    ensures forall line :: closes(line) ==> |delim| <= |line|
  {
    line => Strip(line) == delim
  }

  /** The first line at index `from` or later that passes `closes`. */
  function FindClosing(lines: seq<string>, closes: string -> bool, from: nat): (r: Option<nat>)
    ensures r.Some? ==> from <= r.value < |lines| && closes(lines[r.value])
    ensures forall j :: from <= j < |lines| && (r.None? || j < r.value) ==> !closes(lines[j])
    decreases |lines| - from
  {
    if from >= |lines| then None
    else if closes(lines[from]) then Some(from)
    else FindClosing(lines, closes, from + 1)
  }

  /** The closing delimiter line of the header: the first line after the
      opening one that strips to the dialect's delimiter. */
  function ClosingLine(lines: seq<string>, dialect: Dialect): Option<nat> {
    FindClosing(lines, ClosesWith(dialect.Delimiter()), 1)
  }

  /** The lines with `marker` inserted just before the first line after the
      opening one that passes `closes`; unchanged when there is none. */
  function Inserted(lines: seq<string>, closes: string -> bool, marker: string): (r: seq<string>)
    ensures FindClosing(lines, closes, 1).None? ==> r == lines
    ensures FindClosing(lines, closes, 1).Some? ==> var k := FindClosing(lines, closes, 1).value;
      |r| == |lines| + 1 && r[k] == marker && r[..k] == lines[..k] && r[k + 1..] == lines[k..]
  {
    match FindClosing(lines, closes, 1)
    case None => lines
    case Some(k) => lines[..k] + [marker] + lines[k..]
  }

  /** The lines with the dialect's marker line inserted before the header's
      closing delimiter. */
  function WithMarker(lines: seq<string>, dialect: Dialect): (r: seq<string>)
    ensures |lines| <= |r| <= |lines| + 1
    ensures lines != [] ==> r[0] == lines[0]
  {
    Inserted(lines, ClosesWith(dialect.Delimiter()), dialect.MarkerLine())
  }

  /** The rewrite loop: each line is copied to the output, and the marker
      line is written before the first line after line 0 that passes
      `closes`, which the caller gives as `ClosesWith(delimiter)`. */
  method InsertMarker(lines: seq<string>, closes: string -> bool, marker: string) returns (out: seq<string>)
    ensures out == Inserted(lines, closes, marker)
  {
    var foundClosing := false;
    ghost var k: nat := 0;
    out := [];
    for i := 0 to |lines|
      invariant !foundClosing ==> out == lines[..i]
      invariant !foundClosing ==> forall j :: 1 <= j < i ==> !closes(lines[j])
      invariant foundClosing ==> 1 <= k < i && FindClosing(lines, closes, 1) == Some(k)
      invariant foundClosing ==> out == lines[..k] + [marker] + lines[k..i]
    {
      var line := lines[i];
      AppendLine(lines, marker, k, i);
      if i > 0 && closes(line) && !foundClosing {
        FirstClosingAt(lines, closes, i);
        out := out + [marker] + [line];
        foundClosing := true;
        k := i;
      } else {
        out := out + [line];
      }
    }
    if !foundClosing {
      NoClosing(lines, closes);
    }
  }

  /** How the copied prefix grows by one line, with or without the marker. */
  lemma AppendLine(lines: seq<string>, marker: string, k: nat, i: nat)
    requires i < |lines|
    ensures lines[..i] + [lines[i]] == lines[..i + 1]
    ensures k <= i ==> lines[..k] + [marker] + lines[k..i] + [lines[i]] == lines[..k] + [marker] + lines[k..i + 1]
    ensures lines[..i] + [marker] + [lines[i]] == lines[..i] + [marker] + lines[i..i + 1]
  {
    if k <= i {
      assert lines[k..i] + [lines[i]] == lines[k..i + 1];
    }
  }

  lemma FirstClosingAt(lines: seq<string>, closes: string -> bool, i: nat)
    requires 1 <= i < |lines| && closes(lines[i])
    requires forall j :: 1 <= j < i ==> !closes(lines[j])
    ensures FindClosing(lines, closes, 1) == Some(i)
  {
  }

  lemma NoClosing(lines: seq<string>, closes: string -> bool)
    requires forall j :: 1 <= j < |lines| ==> !closes(lines[j])
    ensures FindClosing(lines, closes, 1) == None
  {
  }

  // ------------------------------------------------------------ properties

  /** Exactly one marker line is added, just before the closing delimiter;
      taking it out again gives back the original lines. */
  lemma MarkerInsertedOnce(lines: seq<string>, dialect: Dialect)
    requires ClosingLine(lines, dialect).Some?
    ensures var k := ClosingLine(lines, dialect).value;
      var r := WithMarker(lines, dialect);
      1 <= k < |lines| && Strip(lines[k]) == dialect.Delimiter() &&
      (forall j :: 1 <= j < k ==> Strip(lines[j]) != dialect.Delimiter()) &&
      |r| == |lines| + 1 && r[k] == dialect.MarkerLine() &&
      r[..k] + r[k + 1..] == lines &&
      multiset(r) == multiset(lines) + multiset{dialect.MarkerLine()}
  {
    InsertionShape(lines, ClosesWith(dialect.Delimiter()), dialect.MarkerLine());
  }

  lemma InsertionShape(lines: seq<string>, closes: string -> bool, marker: string)
    requires FindClosing(lines, closes, 1).Some?
    ensures var k := FindClosing(lines, closes, 1).value;
      var r := Inserted(lines, closes, marker);
      |r| == |lines| + 1 && r[k] == marker && r[..k] + r[k + 1..] == lines &&
      multiset(r) == multiset(lines) + multiset{marker}
  {
    var k := FindClosing(lines, closes, 1).value;
    var r := Inserted(lines, closes, marker);
    assert r[..k] == lines[..k];
    assert r[k + 1..] == lines[k..];
    assert lines == lines[..k] + lines[k..];
    calc {
      multiset(r);
      multiset(lines[..k] + [marker] + lines[k..]);
      multiset(lines[..k]) + multiset{marker} + multiset(lines[k..]);
      multiset(lines[..k] + lines[k..]) + multiset{marker};
    }
  }

  /** A header that never closes leaves the lines as they were. */
  lemma UnclosedHeaderUnchanged(lines: seq<string>, dialect: Dialect)
    requires ClosingLine(lines, dialect).None?
    ensures WithMarker(lines, dialect) == lines
    ensures forall j :: 1 <= j < |lines| ==> Strip(lines[j]) != dialect.Delimiter()
  {
  }

  /** After the insertion the header still opens with the same line and
      closes at the same delimiter line, now one further down. */
  lemma HeaderStillCloses(lines: seq<string>, dialect: Dialect)
    requires ClosingLine(lines, dialect).Some?
    ensures var k := ClosingLine(lines, dialect).value;
      var r := WithMarker(lines, dialect);
      r[0] == lines[0] && ClosingLine(r, dialect) == Some(k + 1)
  {
    MarkerIsNotDelimiter(dialect);
    InsertedClosesNext(lines, ClosesWith(dialect.Delimiter()), dialect.MarkerLine());
  }

  /** A marker that does not pass `closes` moves the first passing line one
      further down. */
  lemma InsertedClosesNext(lines: seq<string>, closes: string -> bool, marker: string)
    requires FindClosing(lines, closes, 1).Some? && !closes(marker)
    ensures FindClosing(Inserted(lines, closes, marker), closes, 1) == Some(FindClosing(lines, closes, 1).value + 1)
  {
    var k := FindClosing(lines, closes, 1).value;
    var r := Inserted(lines, closes, marker);
    forall j | 1 <= j < k + 1 ensures !closes(r[j]) {
      if j < k { assert r[j] == r[..k][j]; }
    }
    assert r[k + 1] == r[k + 1..][0];
    FirstClosingAt(r, closes, k + 1);
  }

  lemma MarkerIsNotDelimiter(dialect: Dialect)
    ensures Strip(dialect.MarkerLine()) != dialect.Delimiter()
  {
    var m := dialect.MarkerLine();
    assert SkipSpace(m, 0) == 0;
  }

  // ----------------------------------------------------------- whole files

  /** Lines as `readlines` returns them: each is non-empty, each but the
      last ends with a newline, and none holds a newline before its last
      character. */
  predicate Lines(lines: seq<string>) {
    (forall i :: 0 <= i < |lines| ==> lines[i] != "") &&
    (forall i :: 0 <= i < |lines| - 1 ==> lines[i][|lines[i]| - 1] == '\n') &&
    (forall i, j :: 0 <= i < |lines| && 0 <= j < |lines[i]| - 1 ==> lines[i][j] != '\n')
  }

  /** The lines of a text as `readlines` returns them, which written one
      after the other give back the text. */
  function SplitLines(text: string): (lines: seq<string>)
    ensures Concat(lines) == text
    ensures Lines(lines)
    decreases |text|
  {
    if text == [] then []
    else
      var n := LineLength(text);
      var rest := SplitLines(text[n..]);
      assert text == text[..n] + text[n..];
      ConsLine(text[..n], rest);
      [text[..n]] + rest
  }

  /** A line that is non-empty and holds no newline before its last
      character, put before lines that are split, gives split lines. */
  lemma ConsLine(first: string, rest: seq<string>)
    requires first != [] && forall j :: 0 <= j < |first| - 1 ==> first[j] != '\n'
    requires rest != [] ==> first[|first| - 1] == '\n'
    requires Lines(rest)
    ensures Concat([first] + rest) == first + Concat(rest)
    ensures Lines([first] + rest)
  {
    var r := [first] + rest;
    assert r[1..] == rest;
    assert forall i :: 1 <= i < |r| ==> r[i] == rest[i - 1];
  }

  /** The length of the first line, its newline included. */
  function LineLength(text: string): (n: nat)
    requires text != []
    ensures 1 <= n <= |text|
    ensures n < |text| ==> text[n - 1] == '\n'
    ensures forall i :: 0 <= i < n - 1 ==> text[i] != '\n'
  {
    if text[0] == '\n' || |text| == 1 then 1 else 1 + LineLength(text[1..])
  }

  /** Writing lines one after the other. */
  function Concat(lines: seq<string>): (r: string)
    ensures lines == [] ==> r == ""
    ensures lines != [] ==> StartsWith(r, lines[0])
  {
    if lines == [] then "" else lines[0] + Concat(lines[1..])
  }

  lemma {:induction false} ConcatAppend(a: seq<string>, b: seq<string>)
    ensures Concat(a + b) == Concat(a) + Concat(b)
    decreases |a|
  {
    if a == [] {
      assert a + b == b;
    } else {
      ConcatAppend(a[1..], b);
      assert (a + b)[1..] == a[1..] + b;
    }
  }

  /** `mark_syndicated`: a file that cannot be opened, or that is empty so
      that `lines[0]` raises, is left as it was (the error is caught before
      the file is opened for writing); otherwise it is rewritten with the
      marker inserted. */
  function MarkSyndicated(disk: Disk, path: string): (d: Disk)
    ensures d.Keys == disk.Keys
    ensures forall p :: p in disk && p != path ==> d[p] == disk[p]
  {
    if path !in disk then disk
    else
      var lines := SplitLines(disk[path]);
      if lines == [] then disk
      else disk[path := Concat(WithMarker(lines, DialectOf(lines[0])))]
  }

  /** The imperative rewrite of one file, as the orchestrator calls it. */
  method MarkFile(disk: Disk, path: string) returns (d: Disk)
    ensures d == MarkSyndicated(disk, path)
  {
    d := disk;
    if path in disk {
      var lines := SplitLines(disk[path]);
      if lines != [] {
        var dialect := DialectOf(lines[0]);
        var out := InsertMarker(lines, ClosesWith(dialect.Delimiter()), dialect.MarkerLine());
        d := disk[path := Concat(out)];
      }
    }
  }

  /** At the text level the rewrite leaves a file unchanged when it is
      empty or its header never closes. Otherwise it writes the dialect's
      marker line at the offset where the closing delimiter's line starts,
      just after a newline, and changes no other character. */
  lemma MarkedTextInsertsMarker(disk: Disk, path: string)
    requires path in disk
    ensures var before := disk[path];
      var lines := SplitLines(before);
      (lines == [] || ClosingLine(lines, DialectOf(lines[0])).None?) ==> MarkSyndicated(disk, path)[path] == before
    ensures var before := disk[path];
      var lines := SplitLines(before);
      lines != [] && ClosingLine(lines, DialectOf(lines[0])).Some? ==>
        var dialect := DialectOf(lines[0]);
        var k := ClosingLine(lines, dialect).value;
        var p := |Concat(lines[..k])|;
        0 < p <= |before| && before[p - 1] == '\n' &&
        StartsWith(before[p..], lines[k]) && Strip(lines[k]) == dialect.Delimiter() &&
        MarkSyndicated(disk, path)[path] == before[..p] + dialect.MarkerLine() + before[p..]
  {
    var text := disk[path];
    var lines := SplitLines(text);
    if lines != [] {
      var dialect := DialectOf(lines[0]);
      match ClosingLine(lines, dialect)
      case None =>
        assert WithMarker(lines, dialect) == lines;
      case Some(k) =>
        var m := dialect.MarkerLine();
        assert MarkSyndicated(disk, path)[path] == Concat(lines[..k] + [m] + lines[k..]);
        var p := InsertedAfterNewline(text, k, m);
        LineStartsAt(lines, k);
    }
  }

  /** Line `k` of the written text starts where the lines before it end. */
  lemma LineStartsAt(lines: seq<string>, k: nat)
    requires k < |lines|
    ensures var p := |Concat(lines[..k])|; p <= |Concat(lines)| && StartsWith(Concat(lines)[p..], lines[k])
  {
    assert lines == lines[..k] + lines[k..];
    ConcatAppend(lines[..k], lines[k..]);
    assert lines[k..][0] == lines[k];
  }

  /** Inserting `m` before line `k` of a text, for `k` past the first line,
      inserts it just after a newline of the text. */
  lemma InsertedAfterNewline(text: string, k: nat, m: string) returns (p: nat)
    requires 1 <= k < |SplitLines(text)|
    ensures 0 < p <= |text| && text[p - 1] == '\n'
    ensures p == |Concat(SplitLines(text)[..k])|
    ensures var lines := SplitLines(text); Concat(lines[..k] + [m] + lines[k..]) == text[..p] + m + text[p..]
  {
    var lines := SplitLines(text);
    assert lines[k - 1] != "" && lines[k - 1][|lines[k - 1]| - 1] == '\n';
    p := InsertedAtLineStart(lines, k, m);
    assert Concat(lines) == text;
  }

  /** Inserting `m` before line `k` of the lines of a text inserts it just
      after a newline of that text. */
  lemma InsertedAtLineStart(lines: seq<string>, k: nat, m: string) returns (p: nat)
    requires 1 <= k < |lines|
    requires lines[k - 1] != "" && lines[k - 1][|lines[k - 1]| - 1] == '\n'
    ensures 0 < p <= |Concat(lines)| && Concat(lines)[p - 1] == '\n'
    ensures p == |Concat(lines[..k])|
    ensures Concat(lines[..k] + [m] + lines[k..]) == Concat(lines)[..p] + m + Concat(lines)[p..]
  {
    assert lines[..k] + lines[k..] == lines;
    ConcatInsert(lines, k, m);
    PrefixEndsWithNewline(lines, k);
    p := |Concat(lines[..k])|;
    ConcatAppend(lines[..k], lines[k..]);
  }

  /** Writing the lines with `m` inserted before line `k` writes `m` at the
      offset where line `k` started. */
  lemma ConcatInsert(lines: seq<string>, k: nat, m: string)
    requires k <= |lines|
    ensures var p := |Concat(lines[..k])|;
      p <= |Concat(lines)| &&
      Concat(lines[..k] + [m] + lines[k..]) == Concat(lines)[..p] + m + Concat(lines)[p..]
  {
    var before, after := lines[..k], lines[k..];
    assert lines == before + after;
    ConcatAppend(before, after);
    ConcatAppend(before, [m]);
    ConcatAppend(before + [m], after);
    assert Concat([m]) == m;
    var p := |Concat(before)|;
    assert Concat(lines)[..p] == Concat(before) && Concat(lines)[p..] == Concat(after);
  }

  /** When line `k - 1` ends with a newline, so does everything written
      before line `k`. */
  lemma PrefixEndsWithNewline(lines: seq<string>, k: nat)
    requires 1 <= k <= |lines|
    requires lines[k - 1] != "" && lines[k - 1][|lines[k - 1]| - 1] == '\n'
    ensures var c := Concat(lines[..k]); c != "" && c[|c| - 1] == '\n'
  {
    var before := lines[..k];
    assert before[|before| - 1] == lines[k - 1];
    ConcatEndsWithLast(before);
  }

  lemma {:induction false} ConcatEndsWithLast(lines: seq<string>)
    requires lines != [] && lines[|lines| - 1] != ""
    ensures var c := Concat(lines); var l := lines[|lines| - 1];
      |c| >= |l| && c[|c| - 1] == l[|l| - 1]
    decreases |lines|
  {
    if |lines| > 1 {
      ConcatEndsWithLast(lines[1..]);
    }
  }
}
