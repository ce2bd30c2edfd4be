/** The pure parts of src/services/reviewService.ts: `cleanResponse`, the
    two prompt builders, and what `generateReview` / `generateTests` do with
    the model's text once it has arrived. The text itself, and the
    `JSON.parse` applied to the cleaned text, are parameters. */
module ReviewService {
  import opened Wrappers
  import opened Strings
  import opened Types

  // ---------------------------------------------------------------------
  // cleanResponse

  /** Opening of the block `/```json\n([\s\S]*?)\n```/` looks for. */
  const JsonFenceOpen := "```json\n"
  /** Closing of that block. */
  const FenceClose := "\n```"
  const JsonFence := "```json"
  const Fence := "```"

  /** The group captured by `text.match(/```json\n([\s\S]*?)\n```/)`: the
      text after the first opening up to the nearest closing that follows
      it. (When the first opening has no closing after it, no later opening
      has one either, so the regex finds no match at all.) */
  function FencedBlock(text: string): (r: Option<string>)
    ensures r.None? <==> forall p: nat, q: nat ::
      OccursAt(text, JsonFenceOpen, p) && p + |JsonFenceOpen| <= q ==> !OccursAt(text, FenceClose, q)
    ensures r.Some? ==> exists p: nat, q: nat ::
      && OccursAt(text, JsonFenceOpen, p)
      && (forall i: nat | i < p :: !OccursAt(text, JsonFenceOpen, i))
      && p + |JsonFenceOpen| <= q && OccursAt(text, FenceClose, q)
      && (forall i: nat | p + |JsonFenceOpen| <= i < q :: !OccursAt(text, FenceClose, i))
      && r.value == text[p + |JsonFenceOpen|..q]
  {
    match Find(text, JsonFenceOpen, 0)
    case None => None
    case Some(p) =>
      match Find(text, FenceClose, p + |JsonFenceOpen|)
      case None => None
      case Some(q) => Some(text[p + |JsonFenceOpen|..q])
  }

  /** `s.replace(/<fence>\n?/g, "")`: every occurrence of `fence`, scanning
      left to right without overlap, is removed together with one newline
      right after it, if any. */
  function RemoveFences(s: string, fence: string): (r: string)
    requires |fence| > 0
    ensures |r| <= |s|
    decreases |s|
  {
    if s == [] then s
    else if StartsWith(s, fence) then
      var rest := s[|fence|..];
      RemoveFences(if rest != [] && rest[0] == '\n' then rest[1..] else rest, fence)
    else [s[0]] + RemoveFences(s[1..], fence)
  }

  /** The fallback of `cleanResponse`, before the trim: "```json" markers
      first, then every remaining "```". */
  function StripFences(text: string): (r: string)
    ensures |r| <= |text|
    ensures Absent(r, Fence)
  {
    NoFenceLeft(RemoveFences(text, JsonFence));
    RemoveFences(RemoveFences(text, JsonFence), Fence)
  }

  /** `cleanResponse(text)`. */
  function CleanResponse(text: string): (r: string)
    ensures Trimmed(r)
  {
    match FencedBlock(text)
    case Some(inner) => Trim(inner)
    case None => Trim(StripFences(text))
  }

  /** With a fenced block present, the result is its trimmed interior,
      between the first opening and the nearest closing after it. */
  lemma CleanResponseFenced(text: string, p: nat, q: nat)
    requires OccursAt(text, JsonFenceOpen, p)
    requires forall i: nat | i < p :: !OccursAt(text, JsonFenceOpen, i)
    requires p + |JsonFenceOpen| <= q && OccursAt(text, FenceClose, q)
    requires forall i: nat | p + |JsonFenceOpen| <= i < q :: !OccursAt(text, FenceClose, i)
    ensures CleanResponse(text) == Trim(text[p + |JsonFenceOpen|..q])
  {
    var first := Find(text, JsonFenceOpen, 0);
    assert first == Some(p);
    assert Find(text, FenceClose, p + |JsonFenceOpen|) == Some(q);
  }

  /** Without a fenced block, the result is the trimmed text with its
      fences stripped. */
  lemma CleanResponseUnfenced(text: string)
    requires forall p: nat, q: nat ::
      OccursAt(text, JsonFenceOpen, p) && p + |JsonFenceOpen| <= q ==> !OccursAt(text, FenceClose, q)
    ensures CleanResponse(text) == Trim(StripFences(text))
  {
  }

  /** Wrapping a payload in a ```json fence and cleaning it gives back the
      trimmed payload, whatever follows the fence. */
  lemma CleanResponseOfFencedPayload(payload: string, rest: string)
    requires Absent(payload, FenceClose)
    ensures CleanResponse(JsonFenceOpen + payload + FenceClose + rest) == Trim(payload)
  {
    FencedBlockOfPayload(payload, rest);
  }

  /** `Find` reports an occurrence that has none before it. */
  lemma FindLeftmost(s: string, t: string, from: nat, q: nat)
    requires from <= q && OccursAt(s, t, q)
    requires forall i: nat | from <= i < q :: !OccursAt(s, t, i)
    ensures Find(s, t, from) == Some(q)
  {
  }

  lemma FencedBlockOfPayload(payload: string, rest: string)
    requires Absent(payload, FenceClose)
    ensures FencedBlock(JsonFenceOpen + payload + FenceClose + rest) == Some(payload)
  {
    var text := JsonFenceOpen + payload + FenceClose + rest;
    var start, q := |JsonFenceOpen|, |JsonFenceOpen| + |payload|;
    assert OccursAt(text, JsonFenceOpen, 0);
    assert text[q..q + |FenceClose|] == FenceClose;
    forall i: nat | start <= i < q
      ensures !OccursAt(text, FenceClose, i)
    {
      NoCloseInsidePayload(payload, rest, i);
    }
    assert Find(text, FenceClose, start) == Some(q) by {
      FindLeftmost(text, FenceClose, start, q);
    }
    assert text[start..q] == payload;
  }

  lemma NoCloseInsidePayload(payload: string, rest: string, i: nat)
    requires Absent(payload, FenceClose)
    requires |JsonFenceOpen| <= i < |JsonFenceOpen| + |payload|
    ensures !OccursAt(JsonFenceOpen + payload + FenceClose + rest, FenceClose, i)
  {
    var text := JsonFenceOpen + payload + FenceClose + rest;
    var q := |JsonFenceOpen| + |payload|;
    var j := i - |JsonFenceOpen|;
    if i + |FenceClose| <= q {
      // inside the payload, where the closing does not occur
      assert text[i..i + |FenceClose|] == payload[j..j + |FenceClose|];
      assert !OccursAt(payload, FenceClose, j);
    } else if i + |FenceClose| <= |text| {
      // running past the payload puts a backtick of the closing on its newline
      assert text[i..i + |FenceClose|][q - i] == text[q] == '\n';
      assert FenceClose[q - i] == '`';
    }
  }

  /** A removal never starts with a backtick unless its input does. */
  lemma FirstKept(s: string, fence: string)
    requires |fence| > 0 && fence[0] == '`'
    ensures RemoveFences(s, fence) != [] && RemoveFences(s, fence)[0] == '`' ==> s != [] && s[0] == '`'
  {
  }

  /** A character kept at the front does not start a fence with what follows. */
  lemma KeptCharStartsNoFence(s: string)
    requires s != [] && !StartsWith(s, Fence)
    ensures !OccursAt([s[0]] + RemoveFences(s[1..], Fence), Fence, 0)
  {
    var u := RemoveFences(s[1..], Fence);
    FirstKept(s[1..], Fence);
    if |s| >= 3 {
      FirstKept(s[2..], Fence);
      assert s[..3] == [s[0], s[1], s[2]];
      if |s| >= 4 {
        assert s[1..][..3] == [s[1], s[2], s[3]];
      }
      if s[0] == '`' && s[1] == '`' {
        assert u == [s[1]] + RemoveFences(s[2..], Fence);
      }
    }
  }

  /** After `replace(/```\n?/g, "")` no "```" is left: a kept backtick is
      never followed by a removed fence, so removals do not join backticks
      into a new fence. */
  lemma {:induction false} NoFenceLeft(s: string)
    ensures Absent(RemoveFences(s, Fence), Fence)
    decreases |s|
  {
    if s == [] {
    } else if StartsWith(s, Fence) {
      var rest := s[|Fence|..];
      NoFenceLeft(if rest != [] && rest[0] == '\n' then rest[1..] else rest);
    } else {
      var u := RemoveFences(s[1..], Fence);
      NoFenceLeft(s[1..]);
      var r := [s[0]] + u;
      assert RemoveFences(s, Fence) == r;
      forall i: nat | i <= |r| ensures !OccursAt(r, Fence, i) {
        if i > 0 && OccursAt(r, Fence, i) {
          assert r[i..i + |Fence|] == u[i - 1..i - 1 + |Fence|];
          assert OccursAt(u, Fence, i - 1);
        }
        if i == 0 {
          KeptCharStartsNoFence(s);
        }
      }
    }
  }

  /** On the stripping path no "```" survives into the result. */
  lemma CleanResponseUnfencedHasNoFence(text: string)
    requires FencedBlock(text).None?
    ensures Absent(CleanResponse(text), Fence)
  {
    TrimKeepsAbsent(StripFences(text), Fence);
  }

  /** Text in which `fence` does not occur is left as it is. */
  lemma {:induction false} RemoveFencesAbsent(s: string, fence: string)
    requires |fence| > 0 && Absent(s, fence)
    ensures RemoveFences(s, fence) == s
    decreases |s|
  {
    if s != [] {
      assert !OccursAt(s, fence, 0);
      AbsentInSlice(s, fence, 1, |s|);
      assert s[1..|s|] == s[1..];
      RemoveFencesAbsent(s[1..], fence);
      assert [s[0]] + s[1..] == s;
    }
  }

  /** The leftmost fence goes, with the one newline right after it if there
      is one; everything before it is kept as it is, and the removal goes on
      after it. */
  lemma {:induction false} RemoveFencesFirst(x: string, fence: string, y: string)
    requires |fence| > 0
    requires forall i: nat | i < |x| :: !OccursAt(x + fence + y, fence, i)
    ensures RemoveFences(x + fence + y, fence)
      == x + RemoveFences(if y != [] && y[0] == '\n' then y[1..] else y, fence)
    decreases |x|
  {
    var s := x + fence + y;
    if x == [] {
      assert s == fence + y;
      assert s[..|fence|] == fence;
      assert s[|fence|..] == y;
    } else {
      assert !OccursAt(s, fence, 0);
      assert s[1..] == x[1..] + fence + y;
      forall i: nat | i < |x[1..]| ensures !OccursAt(x[1..] + fence + y, fence, i) {
        assert !OccursAt(s, fence, i + 1);
        if i + |fence| <= |s[1..]| {
          assert s[1..][i..i + |fence|] == s[i + 1..i + 1 + |fence|];
        }
      }
      RemoveFencesFirst(x[1..], fence, y);
      assert [x[0]] + x[1..] == x;
    }
  }

  /** Text without any "```" (inline code such as "`x`" included) comes
      back only trimmed. */
  lemma CleanResponseWithoutFence(text: string)
    requires Absent(text, Fence)
    ensures CleanResponse(text) == Trim(text)
  {
    AbsentExtended(text, Fence, JsonFenceOpen);
    assert FencedBlock(text) == None by {
      assert Find(text, JsonFenceOpen, 0) == None;
    }
    AbsentExtended(text, Fence, JsonFence);
    RemoveFencesAbsent(text, JsonFence);
    RemoveFencesAbsent(text, Fence);
  }

  // ---------------------------------------------------------------------
  // The prompts

  const ReviewPromptHead := "\n      Review the following pull request:\n      Title: "
  const ReviewPromptDescription := "\n      Description: "
  const ReviewPromptChanges := "\n      \n      Changes:\n      "
  /** The lines of the review template after the changes; the first is
      empty because the changes are followed by a line break. */
  const ReviewTailLines := [
    "",
    "      ",
    "      Please provide a structured review focusing on:",
    "      1. TypeScript best practices",
    "      2. React patterns and performance",
    "      3. Architecture and code organization",
    "      4. Security considerations",
    "      ",
    "      Format the response as a JSON object matching this schema:",
    "      {",
    "        \"strengths\": string[],",
    "        \"improvements\": string[],",
    "        \"security\": string[],",
    "        \"performance\": string[],",
    "        \"testCoverage\": {",
    "          \"current\": string,",
    "          \"missing\": string[]",
    "        }",
    "      }",
    "    "
  ]
  const ReviewPromptTail := Join(ReviewTailLines, "\n")

  const TestPromptHead := "\n      Generate tests for the following code changes:\n      "
  /** The lines of the test template after the changes. */
  const TestTailLines := [
    "",
    "      ",
    "      Please provide test implementations for:",
    "      1. Unit tests",
    "      2. Integration tests",
    "      3. E2E tests",
    "      ",
    "      Format the response as a JSON object matching this schema:",
    "      {",
    "        \"unitTests\": string[],",
    "        \"integrationTests\": string[],",
    "        \"e2eTests\": string[]",
    "      }",
    "    "
  ]
  const TestPromptTail := Join(TestTailLines, "\n")

  const FileLabel := "\n        File: "
  const TypeLabel := "\n        Type: "
  const ContentLabel := "\n        Content:\n        "
  const ChangeEnd := "\n      "

  /** One change in the review prompt: its path, type and content. */
  function ReviewChangeText(c: FileChange): string {
    FileLabel + c.path + TypeLabel + ChangeTypeName(c.kind) + ContentLabel + c.content + ChangeEnd
  }

  /** One change in the test prompt: its path and content only. */
  function TestChangeText(c: FileChange): string {
    FileLabel + c.path + ContentLabel + c.content + ChangeEnd
  }

  function ReviewChangeTexts(changes: seq<FileChange>): (texts: seq<string>)
    ensures |texts| == |changes|
  {
    seq(|changes|, i requires 0 <= i < |changes| => ReviewChangeText(changes[i]))
  }

  function TestChangeTexts(changes: seq<FileChange>): (texts: seq<string>)
    ensures |texts| == |changes|
  {
    seq(|changes|, i requires 0 <= i < |changes| => TestChangeText(changes[i]))
  }

  /** The review prompt up to the first change: the title and the
      description in their places. */
  function ReviewPromptPrefix(ctx: PRContext): string {
    ReviewPromptHead + ctx.title + ReviewPromptDescription + ctx.description + ReviewPromptChanges
  }

  /** `buildReviewPrompt(context)`. */
  function BuildReviewPrompt(ctx: PRContext): (prompt: string)
    ensures StartsWith(prompt, ReviewPromptPrefix(ctx))
    ensures EndsWith(prompt, ReviewPromptTail)
  {
    var changes := Join(ReviewChangeTexts(ctx.changes), "\n");
    Framed(ReviewPromptPrefix(ctx), changes, ReviewPromptTail);
    ReviewPromptPrefix(ctx) + changes + ReviewPromptTail
  }

  /** `buildTestPrompt(context)`. */
  function BuildTestPrompt(ctx: PRContext): (prompt: string)
    ensures StartsWith(prompt, TestPromptHead)
    ensures EndsWith(prompt, TestPromptTail)
  {
    var changes := Join(TestChangeTexts(ctx.changes), "\n");
    Framed(TestPromptHead, changes, TestPromptTail);
    TestPromptHead + changes + TestPromptTail
  }

  lemma OccursInMiddle(pre: string, mid: string, post: string, t: string, i: nat)
    requires OccursAt(mid, t, i)
    ensures OccursAt(pre + mid + post, t, |pre| + i)
  {
    assert (pre + mid + post)[|pre| + i..|pre| + i + |t|] == mid[i..i + |t|];
  }

  /** The rendering of a change holds its path, type name and content. */
  lemma ReviewChangeTextEmbeds(c: FileChange)
    ensures OccursAt(ReviewChangeText(c), c.path, |FileLabel|)
    ensures OccursAt(ReviewChangeText(c), ChangeTypeName(c.kind), |FileLabel| + |c.path| + |TypeLabel|)
    ensures OccursAt(ReviewChangeText(c), c.content,
      |FileLabel| + |c.path| + |TypeLabel| + |ChangeTypeName(c.kind)| + |ContentLabel|)
  {
    var t := ReviewChangeText(c);
    var a := |FileLabel|;
    assert t[a..a + |c.path|] == c.path;
    var b := a + |c.path| + |TypeLabel|;
    assert t[b..b + |ChangeTypeName(c.kind)|] == ChangeTypeName(c.kind);
    var d := b + |ChangeTypeName(c.kind)| + |ContentLabel|;
    assert t[d..d + |c.content|] == c.content;
  }

  /** The test rendering of a change holds its path and its content. */
  lemma TestChangeTextEmbeds(c: FileChange)
    ensures OccursAt(TestChangeText(c), c.path, |FileLabel|)
    ensures OccursAt(TestChangeText(c), c.content, |FileLabel| + |c.path| + |ContentLabel|)
  {
    var t := TestChangeText(c);
    var a := |FileLabel|;
    assert t[a..a + |c.path|] == c.path;
    var d := a + |c.path| + |ContentLabel|;
    assert t[d..d + |c.content|] == c.content;
  }

  /** Where the second and fourth of five concatenated strings begin,
      whatever follows them. */
  lemma FiveParts(a: string, b: string, c: string, d: string, e: string, f: string, g: string)
    ensures OccursAt(a + b + c + d + e + f + g, b, |a|)
    ensures OccursAt(a + b + c + d + e + f + g, d, |a| + |b| + |c|)
  {
    var p := a + b + c + d + e;
    assert p[|a|..|a| + |b|] == b;
    assert p[|a| + |b| + |c|..|a| + |b| + |c| + |d|] == d;
    OccursInMiddle([], p, f + g, b, |a|);
    OccursInMiddle([], p, f + g, d, |a| + |b| + |c|);
    assert [] + p + (f + g) == p + f + g;
  }

  /** The review prompt holds the title and the description. */
  lemma ReviewPromptEmbedsTitle(ctx: PRContext)
    ensures OccursAt(BuildReviewPrompt(ctx), ctx.title, |ReviewPromptHead|)
    ensures OccursAt(BuildReviewPrompt(ctx), ctx.description,
      |ReviewPromptHead| + |ctx.title| + |ReviewPromptDescription|)
  {
    FiveParts(ReviewPromptHead, ctx.title, ReviewPromptDescription, ctx.description,
      ReviewPromptChanges, Join(ReviewChangeTexts(ctx.changes), "\n"), ReviewPromptTail);
  }

  /** Part `k` of lines joined with "\n" between a head and a tail sits at
      its offset in the joined lines, shifted by the head. */
  lemma PartInPrompt(head: string, parts: seq<string>, tail: string, k: nat)
    requires k < |parts|
    ensures OccursAt(head + Join(parts, "\n") + tail, parts[k], |head| + JoinOffset(parts, "\n", k))
  {
    JoinPlacesPart(parts, "\n", k);
    OccursInMiddle(head, Join(parts, "\n"), tail, parts[k], JoinOffset(parts, "\n", k));
  }

  /** The review prompt holds every change's rendering, in change order:
      rendering `k` sits at its offset among the joined renderings, after
      the title and description, and rendering `k + 1` starts one line
      break after it. */
  lemma ReviewPromptEmbedsChange(ctx: PRContext, k: nat)
    requires k < |ctx.changes|
    ensures OccursAt(BuildReviewPrompt(ctx), ReviewChangeTexts(ctx.changes)[k],
      |ReviewPromptPrefix(ctx)| + JoinOffset(ReviewChangeTexts(ctx.changes), "\n", k))
    ensures JoinOffset(ReviewChangeTexts(ctx.changes), "\n", k + 1)
      == JoinOffset(ReviewChangeTexts(ctx.changes), "\n", k) + |ReviewChangeTexts(ctx.changes)[k]| + 1
  {
    PartInPrompt(ReviewPromptPrefix(ctx), ReviewChangeTexts(ctx.changes), ReviewPromptTail, k);
    JoinOffsetNext(ReviewChangeTexts(ctx.changes), "\n", k);
  }

  /** The test prompt holds every change's path and content rendering, in
      change order. */
  lemma TestPromptEmbedsChange(ctx: PRContext, k: nat)
    requires k < |ctx.changes|
    ensures OccursAt(BuildTestPrompt(ctx), TestChangeTexts(ctx.changes)[k],
      |TestPromptHead| + JoinOffset(TestChangeTexts(ctx.changes), "\n", k))
    ensures JoinOffset(TestChangeTexts(ctx.changes), "\n", k + 1)
      == JoinOffset(TestChangeTexts(ctx.changes), "\n", k) + |TestChangeTexts(ctx.changes)[k]| + 1
  {
    PartInPrompt(TestPromptHead, TestChangeTexts(ctx.changes), TestPromptTail, k);
    JoinOffsetNext(TestChangeTexts(ctx.changes), "\n", k);
  }

  /** The test prompt depends on the changes' paths and contents only: not
      on their types, the title, the description or the branches. */
  lemma TestPromptUsesPathsAndContents(a: PRContext, b: PRContext)
    requires |a.changes| == |b.changes|
    requires forall i | 0 <= i < |a.changes| ::
      a.changes[i].path == b.changes[i].path && a.changes[i].content == b.changes[i].content
    ensures BuildTestPrompt(a) == BuildTestPrompt(b)
  {
    assert TestChangeTexts(a.changes) == TestChangeTexts(b.changes);
  }

  // ---------------------------------------------------------------------
  // From the model's text to a validated value

  const ReviewMissingText := "Failed to generate review"
  const ReviewParseError := "Failed to parse review response: "
  const TestsMissingText := "Failed to generate tests"
  const TestsParseError := "Failed to parse test response: "

  /** The tail of `generateReview`: empty text is an error; otherwise the
      cleaned text is parsed and validated, any failure of either reported
      under the "Failed to parse review response: " prefix. */
  function ReviewFromText(text: string, parse: string -> Result<Json, string>): (r: Result<CodeReview, string>)
    ensures text == "" ==> r == Failure(ReviewMissingText)
    ensures text != "" ==>
      (r.Success? <==> parse(CleanResponse(text)).Success? && IsCodeReview(parse(CleanResponse(text)).value))
    ensures text != "" && r.Failure? ==> StartsWith(r.error, ReviewParseError)
    ensures r.Success? ==> ReviewToJson(r.value) == StrippedReview(parse(CleanResponse(text)).value)
  {
    if text == "" then Failure(ReviewMissingText)
    else
      match parse(CleanResponse(text))
      case Failure(message) => Failure(ReviewParseError + message)
      case Success(json) =>
        match ValidateCodeReview(json)
        case Failure(message) => Failure(ReviewParseError + message)
        case Success(review) => Success(review)
  }

  /** The tail of `generateTests`. */
  function TestsFromText(text: string, parse: string -> Result<Json, string>): (r: Result<TestGeneration, string>)
    ensures text == "" ==> r == Failure(TestsMissingText)
    ensures text != "" ==>
      (r.Success? <==> parse(CleanResponse(text)).Success? && IsTestGeneration(parse(CleanResponse(text)).value))
    ensures text != "" && r.Failure? ==> StartsWith(r.error, TestsParseError)
    ensures r.Success? ==> TestsToJson(r.value) == StrippedTests(parse(CleanResponse(text)).value)
  {
    if text == "" then Failure(TestsMissingText)
    else
      match parse(CleanResponse(text))
      case Failure(message) => Failure(TestsParseError + message)
      case Success(json) =>
        match ValidateTestGeneration(json)
        case Failure(message) => Failure(TestsParseError + message)
        case Success(tests) => Success(tests)
  }

  /** A model answer that fences the JSON of a review yields that review. */
  lemma ReviewFromFencedAnswer(payload: string, rest: string, v: CodeReview, parse: string -> Result<Json, string>)
    requires Absent(payload, FenceClose) && Trimmed(payload)
    requires parse(payload) == Success(ReviewToJson(v))
    ensures ReviewFromText(JsonFenceOpen + payload + FenceClose + rest, parse) == Success(v)
  {
    CleanResponseOfFencedPayload(payload, rest);
    TrimOfTrimmed(payload);
    ReviewRoundTrip(v);
  }

  /** A model answer that fences the JSON of a test set yields that set. */
  lemma TestsFromFencedAnswer(payload: string, rest: string, v: TestGeneration, parse: string -> Result<Json, string>)
    requires Absent(payload, FenceClose) && Trimmed(payload)
    requires parse(payload) == Success(TestsToJson(v))
    ensures TestsFromText(JsonFenceOpen + payload + FenceClose + rest, parse) == Success(v)
  {
    CleanResponseOfFencedPayload(payload, rest);
    TrimOfTrimmed(payload);
    TestsRoundTrip(v);
  }
}
