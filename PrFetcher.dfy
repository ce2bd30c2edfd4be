/** The pure parts of src/utils/prFetcher.ts: the PR number taken from a
    Bitbucket pull-request URL, and `parseChanges`, the line-by-line scan
    that turns a unified diff into an ordered list of file changes. */
module PrFetcher {
  import opened Wrappers
  import opened Strings
  import opened Types

  // ---------------------------------------------------------------------
  // PR number: `prUrl.match(/pull-requests\/(\d+)/)`

  const PullRequestsSegment := "pull-requests/"

  const InvalidUrlMessage :=
    "Invalid PR URL format. Expected format: https://bitbucket.org/workspace/repo/pull-requests/123"

  /** `\d`: an ASCII digit. */
  predicate IsDigit(c: char) {
    '0' <= c <= '9'
  }

  predicate AllDigits(s: string) {
    forall i | 0 <= i < |s| :: IsDigit(s[i])
  }

  /** The pattern matches at `i`: `pull-requests/` followed by a digit. */
  predicate PRMatchAt(url: string, i: nat) {
    OccursAt(url, PullRequestsSegment, i) && i + |PullRequestsSegment| < |url|
    && IsDigit(url[i + |PullRequestsSegment|])
  }

  /** The leftmost position at or after `from` where the pattern matches. */
  function FindPRMatch(url: string, from: nat): (r: Option<nat>)
    ensures r.Some? ==> from <= r.value && PRMatchAt(url, r.value)
    ensures r.Some? ==> forall i: nat | from <= i < r.value :: !PRMatchAt(url, i)
    ensures r.None? ==> forall i: nat | from <= i :: !PRMatchAt(url, i)
    decreases |url| - from
  {
    if from + |PullRequestsSegment| >= |url| then None
    else if PRMatchAt(url, from) then Some(from)
    else FindPRMatch(url, from + 1)
  }

  /** The greedy `\d+` run starting at `i`: the longest run of digits there. */
  function DigitRun(s: string, i: nat): (r: string)
    requires i <= |s|
    ensures i + |r| <= |s| && r == s[i..i + |r|]
    ensures AllDigits(r)
    ensures i + |r| == |s| || !IsDigit(s[i + |r|])
    decreases |s| - i
  {
    if i < |s| && IsDigit(s[i]) then [s[i]] + DigitRun(s, i + 1) else ""
  }

  /** The PR number of `fetchPRDetails`: the maximal digit run after the
      leftmost `pull-requests/` that is followed by a digit, or the
      "Invalid PR URL format" error when there is none. */
  function ExtractPRNumber(url: string): (r: Result<string, string>)
    ensures r.Success? <==> exists p: nat :: PRMatchAt(url, p)
    ensures r.Failure? ==> r.error == InvalidUrlMessage
    ensures r.Success? ==> |r.value| > 0 && AllDigits(r.value)
    ensures r.Success? ==> exists p: nat ::
      && PRMatchAt(url, p)
      && (forall q: nat | q < p :: !PRMatchAt(url, q))
      && r.value == DigitRun(url, p + |PullRequestsSegment|)
  {
    match FindPRMatch(url, 0)
    case None => Failure(InvalidUrlMessage)
    case Some(p) => Success(DigitRun(url, p + |PullRequestsSegment|))
  }

  /** `FindPRMatch` reports a match that has none before it. */
  lemma FindPRMatchLeftmost(url: string, from: nat, q: nat)
    requires from <= q && PRMatchAt(url, q)
    requires forall i: nat | from <= i < q :: !PRMatchAt(url, i)
    ensures FindPRMatch(url, from) == Some(q)
  {
  }

  /** A URL built as `prefix + "pull-requests/" + digits + rest`, where the
      pattern does not match any earlier and `rest` does not continue the
      digits, gives back exactly those digits. */
  lemma ExtractPRNumberOfBuiltUrl(prefix: string, number: string, rest: string)
    requires |number| > 0 && AllDigits(number)
    requires rest == [] || !IsDigit(rest[0])
    requires forall q: nat | q < |prefix| ::
      !PRMatchAt(prefix + PullRequestsSegment + number + rest, q)
    ensures ExtractPRNumber(prefix + PullRequestsSegment + number + rest) == Success(number)
  {
    var url := prefix + PullRequestsSegment + number + rest;
    var p := |prefix|;
    var start := p + |PullRequestsSegment|;
    assert url[p..start] == PullRequestsSegment;
    assert url[start] == number[0];
    assert PRMatchAt(url, p);
    assert FindPRMatch(url, 0) == Some(p) by {
      FindPRMatchLeftmost(url, 0, p);
    }
    var run := DigitRun(url, start);
    assert url[start..start + |number|] == number;
    assert |run| == |number|;
  }

  // ---------------------------------------------------------------------
  // parseChanges, specified as a left fold of one step per line

  const HeaderMarker := "diff --git"
  const NewFileMarker := "new file"
  const DeletedFileMarker := "deleted file"

  predicate IsHeader(line: string) {
    StartsWith(line, HeaderMarker)
  }

  /** `line.split(" ")[2]` exists; otherwise the source reads `.substring`
      of `undefined` and throws. */
  predicate HeaderWellFormed(line: string) {
    |Split(line, ' ')| >= 3
  }

  predicate HeadersWellFormed(lines: seq<string>) {
    forall i | 0 <= i < |lines| :: IsHeader(lines[i]) ==> HeaderWellFormed(lines[i])
  }

  /** The path of a header line: its third space-separated token without its
      first two characters (`substring(2)`, which gives "" for a token of at
      most two characters). */
  function HeaderPath(line: string): string
    requires HeaderWellFormed(line)
  {
    var token := Split(line, ' ')[2];
    if |token| >= 2 then token[2..] else ""
  }

  /** The header git writes for a file, `diff --git a/<source> b/<target>`, gives
      the source path when neither path holds a space. */
  lemma HeaderPathOfGitHeader(source: string, target: string)
    requires ' ' !in source && ' ' !in target
    ensures IsHeader("diff --git a/" + source + " b/" + target)
    ensures HeaderWellFormed("diff --git a/" + source + " b/" + target)
    ensures HeaderPath("diff --git a/" + source + " b/" + target) == source
  {
    var line := "diff --git a/" + source + " b/" + target;
    var a, b := "a/" + source, "b/" + target;
    assert ' ' !in a && ' ' !in b;
    assert line == "diff" + [' '] + ("--git" + [' '] + (a + [' '] + b));
    SplitAtFirstSeparator("diff", "--git" + [' '] + (a + [' '] + b), ' ');
    SplitAtFirstSeparator("--git", a + [' '] + b, ' ');
    SplitAtFirstSeparator(a, b, ' ');
    SplitWithoutSeparator(b, ' ');
    assert Split(line, ' ') == ["diff", "--git", a, b];
    assert line[..|HeaderMarker|] == HeaderMarker;
    assert a[2..] == source;
  }

  /** The accumulators of the scan: the records pushed so far, and the
      current file's path, content buffer and type. */
  datatype Scan = Scan(changes: seq<FileChange>, file: string, content: string, kind: ChangeType)

  const Start := Scan([], "", "", Modified)

  /** The records once the current file, if it has a path, is pushed. */
  function Flush(st: Scan): seq<FileChange> {
    if st.file != "" then st.changes + [FileChange(st.file, st.content, st.kind)] else st.changes
  }

  function Step(st: Scan, line: string): Scan
    requires IsHeader(line) ==> HeaderWellFormed(line)
  {
    if IsHeader(line) then Scan(Flush(st), HeaderPath(line), "", Modified)
    else if StartsWith(line, NewFileMarker) then st.(kind := Added)
    else if StartsWith(line, DeletedFileMarker) then st.(kind := Deleted)
    else st.(content := st.content + line + "\n")
  }

  function Run(st: Scan, lines: seq<string>): Scan
    requires HeadersWellFormed(lines)
  {
    if lines == [] then st else Step(Run(st, lines[..|lines| - 1]), lines[|lines| - 1])
  }

  /** What `parseChanges` returns for the lines of a diff. */
  function ParseLines(lines: seq<string>): seq<FileChange>
    requires HeadersWellFormed(lines)
  {
    Flush(Run(Start, lines))
  }

  function Lines(diff: string): seq<string> {
    Split(diff, '\n')
  }

  /** `parseChanges(diff)`: the loop over `diff.split("\n")` with its three
      accumulators, pushing a record at each header and at the end whenever
      a path is pending. */
  method ParseChanges(diff: string) returns (changes: seq<FileChange>)
    requires HeadersWellFormed(Lines(diff))
    ensures changes == ParseLines(Lines(diff))
    ensures Paths(changes) == HeaderPaths(Lines(diff))
    ensures forall i | 0 <= i < |changes| :: changes[i].path != ""
  {
    var lines := Split(diff, '\n');
    changes := [];
    var currentFile := "";
    var currentContent := "";
    var currentType := Modified;
    for i := 0 to |lines|
      invariant Scan(changes, currentFile, currentContent, currentType) == Run(Start, lines[..i])
    {
      var line := lines[i];
      assert lines[..i + 1][..i] == lines[..i];
      if StartsWith(line, HeaderMarker) {
        if currentFile != "" {
          changes := changes + [FileChange(currentFile, currentContent, currentType)];
        }
        currentFile := HeaderPath(line);
        currentContent := "";
        currentType := Modified;
      } else if StartsWith(line, NewFileMarker) {
        currentType := Added;
      } else if StartsWith(line, DeletedFileMarker) {
        currentType := Deleted;
      } else {
        currentContent := currentContent + line + "\n";
      }
    }
    if currentFile != "" {
      changes := changes + [FileChange(currentFile, currentContent, currentType)];
    }
    assert lines[..|lines|] == lines;
    ParsePaths(lines);
    HeaderPathsNonEmpty(lines);
  }

  // ---------------------------------------------------------------------
  // Which records, in which order

  function Paths(changes: seq<FileChange>): (paths: seq<string>)
    ensures |paths| == |changes|
    ensures forall i | 0 <= i < |changes| :: paths[i] == changes[i].path
  {
    if changes == [] then [] else Paths(changes[..|changes| - 1]) + [changes[|changes| - 1].path]
  }

  /** The paths of the header lines whose path is non-empty, in line order:
      one per header whose third token is longer than two characters. */
  function HeaderPaths(lines: seq<string>): seq<string>
    requires HeadersWellFormed(lines)
  {
    if lines == [] then []
    else
      var last := lines[|lines| - 1];
      HeaderPaths(lines[..|lines| - 1])
        + (if IsHeader(last) && HeaderPath(last) != "" then [HeaderPath(last)] else [])
  }

  lemma {:induction false} HeaderPathsNonEmpty(lines: seq<string>)
    requires HeadersWellFormed(lines)
    ensures |HeaderPaths(lines)| <= |lines|
    ensures forall i | 0 <= i < |HeaderPaths(lines)| :: HeaderPaths(lines)[i] != ""
  {
    if lines != [] {
      HeaderPathsNonEmpty(lines[..|lines| - 1]);
    }
  }

  lemma PathsAppend(a: seq<FileChange>, b: seq<FileChange>)
    ensures Paths(a + b) == Paths(a) + Paths(b)
  {
  }

  lemma StepPaths(st: Scan, line: string)
    requires IsHeader(line) ==> HeaderWellFormed(line)
    ensures Paths(Flush(Step(st, line))) == Paths(Flush(st))
      + (if IsHeader(line) && HeaderPath(line) != "" then [HeaderPath(line)] else [])
  {
    if IsHeader(line) && HeaderPath(line) != "" {
      PathsAppend(Flush(st), [FileChange(HeaderPath(line), "", Modified)]);
    }
  }

  lemma {:induction false} RunPaths(st: Scan, lines: seq<string>)
    requires HeadersWellFormed(lines)
    ensures Paths(Flush(Run(st, lines))) == Paths(Flush(st)) + HeaderPaths(lines)
  {
    if lines != [] {
      var init := lines[..|lines| - 1];
      var last := lines[|lines| - 1];
      assert HeadersWellFormed(init);
      RunPaths(st, init);
      var mid := Run(st, init);
      assert Run(st, lines) == Step(mid, last);
      StepPaths(mid, last);
      var tail := if IsHeader(last) && HeaderPath(last) != "" then [HeaderPath(last)] else [];
      assert HeaderPaths(lines) == HeaderPaths(init) + tail;
      assert Paths(Flush(Step(mid, last))) == Paths(Flush(st)) + HeaderPaths(init) + tail;
    }
  }

  /** The records are exactly one per header line with a non-empty path, in
      the order of those lines, and carry those paths. In particular the
      number of records is the number of such headers. */
  lemma ParsePaths(lines: seq<string>)
    requires HeadersWellFormed(lines)
    ensures Paths(ParseLines(lines)) == HeaderPaths(lines)
    ensures |ParseLines(lines)| == |HeaderPaths(lines)|
  {
    RunPaths(Start, lines);
  }

  // ---------------------------------------------------------------------
  // What each record holds

  predicate HeaderFree(lines: seq<string>) {
    forall i | 0 <= i < |lines| :: !IsHeader(lines[i])
  }

  /** A line that sets the type of the current file. */
  predicate IsMarker(line: string) {
    StartsWith(line, NewFileMarker) || StartsWith(line, DeletedFileMarker)
  }

  /** The type set by the last `new file` / `deleted file` marker among
      `body`, or `initial` when there is none. */
  function BodyKind(initial: ChangeType, body: seq<string>): ChangeType {
    if body == [] then initial
    else
      var last := body[|body| - 1];
      if StartsWith(last, NewFileMarker) then Added
      else if StartsWith(last, DeletedFileMarker) then Deleted
      else BodyKind(initial, body[..|body| - 1])
  }

  /** The lines of `body` that are not markers, each followed by "\n". */
  function BodyContent(body: seq<string>): string {
    if body == [] then ""
    else
      var last := body[|body| - 1];
      BodyContent(body[..|body| - 1])
        + (if IsMarker(last) then "" else last + "\n")
  }

  lemma {:induction false} RunConcat(st: Scan, a: seq<string>, b: seq<string>)
    requires HeadersWellFormed(a) && HeadersWellFormed(b)
    ensures HeadersWellFormed(a + b)
    ensures Run(st, a + b) == Run(Run(st, a), b)
  {
    if b != [] {
      assert (a + b)[..|a + b| - 1] == a + b[..|b| - 1];
      RunConcat(st, a, b[..|b| - 1]);
    } else {
      assert a + b == a;
    }
  }

  /** Lines between two headers only set the type and extend the content. */
  lemma {:induction false} RunBody(st: Scan, body: seq<string>)
    requires HeaderFree(body)
    ensures Run(st, body) == st.(content := st.content + BodyContent(body), kind := BodyKind(st.kind, body))
  {
    if body != [] {
      RunBody(st, body[..|body| - 1]);
    }
  }

  /** Lines before the first header produce no record. */
  lemma ParsePreamble(pre: seq<string>)
    requires HeaderFree(pre)
    ensures ParseLines(pre) == []
  {
    RunBody(Start, pre);
  }

  /** The empty diff, whose only line is "", has no records. */
  lemma ParseEmptyDiff()
    ensures HeadersWellFormed(Lines(""))
    ensures ParseLines(Lines("")) == []
  {
    assert Lines("") == [""];
    assert !IsHeader("");
    ParsePreamble([""]);
  }

  /** A header followed by header-free lines adds at most one record, after
      those of everything before it: the header's path, the content of the
      non-marker lines, and the type of the last marker (`modified` when
      none). A header whose path is empty adds nothing. */
  lemma ParseBlock(before: seq<string>, header: string, body: seq<string>)
    requires HeadersWellFormed(before)
    requires IsHeader(header) && HeaderWellFormed(header)
    requires HeaderFree(body)
    ensures HeadersWellFormed(before + [header] + body)
    ensures ParseLines(before + [header] + body) == ParseLines(before)
      + (if HeaderPath(header) != ""
         then [FileChange(HeaderPath(header), BodyContent(body), BodyKind(Modified, body))]
         else [])
  {
    assert HeadersWellFormed([header]);
    RunConcat(Start, before, [header]);
    assert [header][..0] == [];
    var atHeader := Run(Start, before + [header]);
    assert atHeader == Scan(ParseLines(before), HeaderPath(header), "", Modified);
    RunConcat(Start, before + [header], body);
    RunBody(atHeader, body);
    assert Run(Start, before + [header] + body)
      == Scan(ParseLines(before), HeaderPath(header), BodyContent(body), BodyKind(Modified, body));
  }

  /** The content of two runs of body lines is the content of the first
      followed by the content of the second. */
  lemma {:induction false} BodyContentAppend(a: seq<string>, b: seq<string>)
    ensures BodyContent(a + b) == BodyContent(a) + BodyContent(b)
    decreases |b|
  {
    if b == [] {
      assert a + b == a;
    } else {
      var init := b[..|b| - 1];
      assert (a + b)[..|a + b| - 1] == a + init;
      BodyContentAppend(a, init);
    }
  }

  /** A `new file` or `deleted file` line leaves no trace in the content,
      wherever it stands among the body lines. */
  lemma BodyContentSkipsMarkers(a: seq<string>, m: string, b: seq<string>)
    requires IsMarker(m)
    ensures BodyContent(a + [m] + b) == BodyContent(a + b)
  {
    BodyContentAppend(a + [m], b);
    BodyContentAppend(a, b);
    assert (a + [m])[..|a + [m]| - 1] == a;
  }

  /** Any other line reaches the content, in its place, followed by "\n". */
  lemma BodyContentKeepsLine(a: seq<string>, line: string, b: seq<string>)
    requires !IsMarker(line)
    ensures BodyContent(a + [line] + b) == BodyContent(a) + line + "\n" + BodyContent(b)
  {
    BodyContentAppend(a + [line], b);
    assert (a + [line])[..|a + [line]| - 1] == a;
  }
}
