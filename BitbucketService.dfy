/** The pure parts of src/services/bitbucketService.ts: the markdown comment
    `formatReviewAsComment` renders from a review result, and the URL
    `addComment` posts it to. */
module BitbucketService {
  import opened Strings
  import opened Types

  const SummaryHeading := "## Code Review Summary"
  const StrengthsHeading := "\n### Strengths"
  const ImprovementsHeading := "\n### Improvements"
  const SecurityHeading := "\n### Security Considerations"
  const PerformanceHeading := "\n### Performance"
  const CoverageHeading := "\n### Test Coverage"
  const CurrentLabel := "Current: "
  const MissingLabel := "\nMissing Tests:"
  const SuggestedHeading := "\n### Suggested Tests"
  const UnitHeading := "\n#### Unit Tests"
  const IntegrationHeading := "\n#### Integration Tests"
  const E2EHeading := "\n#### E2E Tests"

  const BulletPrefix := "- "
  const CodeOpen := "```typescript\n"
  const CodeClose := "\n```"

  /** `items.map((s) => `- ${s}`)`. */
  function Bullets(items: seq<string>): (lines: seq<string>)
    ensures |lines| == |items|
  {
    seq(|items|, i requires 0 <= i < |items| => BulletPrefix + items[i])
  }

  /** `tests.map((t) => "```typescript\n" + t + "\n```")`. */
  function CodeBlocks(tests: seq<string>): (blocks: seq<string>)
    ensures |blocks| == |tests|
  {
    seq(|tests|, i requires 0 <= i < |tests| => CodeOpen + tests[i] + CodeClose)
  }

  /** `s[at]` is `heading` and the elements right after it are `lines`. */
  predicate Section(s: seq<string>, at: nat, heading: string, lines: seq<string>) {
    at + 1 + |lines| <= |s| && s[at] == heading && s[at + 1..at + 1 + |lines|] == lines
  }

  lemma SectionAppended(p: seq<string>, heading: string, lines: seq<string>)
    ensures Section(p + [heading] + lines, |p|, heading, lines)
  {
    var s := p + [heading] + lines;
    assert s[|p| + 1..|p| + 1 + |lines|] == lines;
  }

  lemma SectionInPrefix(s: seq<string>, p: seq<string>, at: nat, heading: string, lines: seq<string>)
    requires |p| <= |s| && s[..|p|] == p
    requires Section(p, at, heading, lines)
    ensures Section(s, at, heading, lines)
  {
    assert s[at] == p[at];
    assert s[at + 1..at + 1 + |lines|] == p[at + 1..at + 1 + |lines|];
  }

  /** A section of `b` is a section of `a + b + c`, `|a|` further on. */
  lemma SectionShifted(a: seq<string>, b: seq<string>, c: seq<string>, at: nat, heading: string, lines: seq<string>)
    requires Section(b, at, heading, lines)
    ensures Section(a + b + c, |a| + at, heading, lines)
  {
    var s := a + b + c;
    assert s[|a| + at] == b[at];
    assert s[|a| + at + 1..|a| + at + 1 + |lines|] == b[at + 1..at + 1 + |lines|];
  }

  /** The review half of the comment: the summary heading, then strengths,
      improvements, security considerations and performance. */
  function ReviewSections(v: CodeReview): (s: seq<string>)
    ensures |s| == 5 + |v.strengths| + |v.improvements| + |v.security| + |v.performance|
  {
    [SummaryHeading] + [StrengthsHeading] + Bullets(v.strengths)
      + [ImprovementsHeading] + Bullets(v.improvements)
      + [SecurityHeading] + Bullets(v.security)
      + [PerformanceHeading] + Bullets(v.performance)
  }

  /** The test coverage part: its heading, the current coverage and the
      missing tests. */
  function CoverageSections(c: TestCoverage): (s: seq<string>)
    ensures |s| == 3 + |c.missing|
  {
    [CoverageHeading] + [CurrentLabel + c.current] + [MissingLabel] + Bullets(c.missing)
  }

  /** The suggested tests: unit, integration and end-to-end, each as code
      blocks. */
  function TestSections(t: TestGeneration): (s: seq<string>)
    ensures |s| == 4 + |t.unitTests| + |t.integrationTests| + |t.e2eTests|
  {
    [SuggestedHeading] + [UnitHeading] + CodeBlocks(t.unitTests)
      + [IntegrationHeading] + CodeBlocks(t.integrationTests)
      + [E2EHeading] + CodeBlocks(t.e2eTests)
  }

  /** The `sections` array of `formatReviewAsComment`: twelve fixed
      headings and labels plus one element per item of the eight lists. */
  function CommentSections(r: PRReviewResult): (s: seq<string>)
    ensures |s| == 12 + |r.review.strengths| + |r.review.improvements| + |r.review.security|
      + |r.review.performance| + |r.review.testCoverage.missing|
      + |r.tests.unitTests| + |r.tests.integrationTests| + |r.tests.e2eTests|
  {
    ReviewSections(r.review) + CoverageSections(r.review.testCoverage) + TestSections(r.tests)
  }

  lemma ReviewSectionsLayout(v: CodeReview)
    ensures var s, n1, n2, n3 := ReviewSections(v), |v.strengths|, |v.improvements|, |v.security|;
      && s[0] == SummaryHeading
      && Section(s, 1, StrengthsHeading, Bullets(v.strengths))
      && Section(s, 2 + n1, ImprovementsHeading, Bullets(v.improvements))
      && Section(s, 3 + n1 + n2, SecurityHeading, Bullets(v.security))
      && Section(s, 4 + n1 + n2 + n3, PerformanceHeading, Bullets(v.performance))
  {
    var p0 := [SummaryHeading] + [StrengthsHeading] + Bullets(v.strengths);
    var p1 := p0 + [ImprovementsHeading] + Bullets(v.improvements);
    var p2 := p1 + [SecurityHeading] + Bullets(v.security);
    var s := p2 + [PerformanceHeading] + Bullets(v.performance);
    SectionAppended([SummaryHeading], StrengthsHeading, Bullets(v.strengths));
    SectionInPrefix(s, p0, 1, StrengthsHeading, Bullets(v.strengths));
    SectionAppended(p0, ImprovementsHeading, Bullets(v.improvements));
    SectionInPrefix(s, p1, |p0|, ImprovementsHeading, Bullets(v.improvements));
    SectionAppended(p1, SecurityHeading, Bullets(v.security));
    SectionInPrefix(s, p2, |p1|, SecurityHeading, Bullets(v.security));
    SectionAppended(p2, PerformanceHeading, Bullets(v.performance));
  }

  lemma CoverageSectionsLayout(c: TestCoverage)
    ensures var s := CoverageSections(c);
      && s[0] == CoverageHeading
      && s[1] == CurrentLabel + c.current
      && Section(s, 2, MissingLabel, Bullets(c.missing))
  {
    SectionAppended([CoverageHeading] + [CurrentLabel + c.current], MissingLabel, Bullets(c.missing));
  }

  lemma TestSectionsLayout(t: TestGeneration)
    ensures var s, n1, n2 := TestSections(t), |t.unitTests|, |t.integrationTests|;
      && s[0] == SuggestedHeading
      && Section(s, 1, UnitHeading, CodeBlocks(t.unitTests))
      && Section(s, 2 + n1, IntegrationHeading, CodeBlocks(t.integrationTests))
      && Section(s, 3 + n1 + n2, E2EHeading, CodeBlocks(t.e2eTests))
  {
    var p0 := [SuggestedHeading] + [UnitHeading] + CodeBlocks(t.unitTests);
    var p1 := p0 + [IntegrationHeading] + CodeBlocks(t.integrationTests);
    var s := p1 + [E2EHeading] + CodeBlocks(t.e2eTests);
    SectionAppended([SuggestedHeading], UnitHeading, CodeBlocks(t.unitTests));
    SectionInPrefix(s, p0, 1, UnitHeading, CodeBlocks(t.unitTests));
    SectionAppended(p0, IntegrationHeading, CodeBlocks(t.integrationTests));
    SectionInPrefix(s, p1, |p0|, IntegrationHeading, CodeBlocks(t.integrationTests));
    SectionAppended(p1, E2EHeading, CodeBlocks(t.e2eTests));
  }

  /** Where each heading of the comment sits among its elements: the
      headings of Improvements, Security Considerations, Performance, Test
      Coverage, Suggested Tests, Integration Tests and E2E Tests. */
  datatype Layout = Layout(
    improvements: nat, security: nat, performance: nat, coverage: nat,
    suggested: nat, integration: nat, e2e: nat)

  function LayoutOf(r: PRReviewResult): Layout {
    var v, t := r.review, r.tests;
    var improvements := 2 + |v.strengths|;
    var security := improvements + 1 + |v.improvements|;
    var performance := security + 1 + |v.security|;
    var coverage := performance + 1 + |v.performance|;
    var suggested := coverage + 3 + |v.testCoverage.missing|;
    var integration := suggested + 2 + |t.unitTests|;
    Layout(improvements, security, performance, coverage, suggested, integration, integration + 1 + |t.integrationTests|)
  }

  /** The sections come in a fixed order, every heading is present even
      when its list is empty, and each list follows its heading, rendered
      item by item in its own order: the review part. */
  lemma CommentReviewLayout(r: PRReviewResult)
    ensures var s, v, at := CommentSections(r), r.review, LayoutOf(r);
      && s[0] == SummaryHeading
      && Section(s, 1, StrengthsHeading, Bullets(v.strengths))
      && Section(s, at.improvements, ImprovementsHeading, Bullets(v.improvements))
      && Section(s, at.security, SecurityHeading, Bullets(v.security))
      && Section(s, at.performance, PerformanceHeading, Bullets(v.performance))
  {
    var v := r.review;
    var a, b, c := ReviewSections(v), CoverageSections(v.testCoverage), TestSections(r.tests);
    ReviewSectionsLayout(v);
    var s, n1, n2, n3 := a + b + c, |v.strengths|, |v.improvements|, |v.security|;
    assert s[..|a|] == a;
    SectionInPrefix(s, a, 1, StrengthsHeading, Bullets(v.strengths));
    SectionInPrefix(s, a, 2 + n1, ImprovementsHeading, Bullets(v.improvements));
    SectionInPrefix(s, a, 3 + n1 + n2, SecurityHeading, Bullets(v.security));
    SectionInPrefix(s, a, 4 + n1 + n2 + n3, PerformanceHeading, Bullets(v.performance));
  }

  /** The test coverage part, right after the performance items. */
  lemma CommentCoverageLayout(r: PRReviewResult)
    ensures var s, v, at := CommentSections(r), r.review, LayoutOf(r);
      && at.coverage + 1 < |s|
      && s[at.coverage] == CoverageHeading
      && s[at.coverage + 1] == CurrentLabel + v.testCoverage.current
      && Section(s, at.coverage + 2, MissingLabel, Bullets(v.testCoverage.missing))
  {
    var v := r.review;
    var a, b, c := ReviewSections(v), CoverageSections(v.testCoverage), TestSections(r.tests);
    CoverageSectionsLayout(v.testCoverage);
    SectionShifted(a, b, c, 2, MissingLabel, Bullets(v.testCoverage.missing));
    assert (a + b + c)[|a|] == b[0] && (a + b + c)[|a| + 1] == b[1];
  }

  /** The suggested tests part, last. */
  lemma CommentTestsLayout(r: PRReviewResult)
    ensures var s, t, at := CommentSections(r), r.tests, LayoutOf(r);
      && s[at.suggested] == SuggestedHeading
      && Section(s, at.suggested + 1, UnitHeading, CodeBlocks(t.unitTests))
      && Section(s, at.integration, IntegrationHeading, CodeBlocks(t.integrationTests))
      && Section(s, at.e2e, E2EHeading, CodeBlocks(t.e2eTests))
      && at.e2e + 1 + |t.e2eTests| == |s|
  {
    var t := r.tests;
    var a, b, c := ReviewSections(r.review), CoverageSections(r.review.testCoverage), TestSections(t);
    TestSectionsLayout(t);
    var m1, m2 := |t.unitTests|, |t.integrationTests|;
    assert a + b + c + [] == a + b + c;
    SectionShifted(a + b, c, [], 1, UnitHeading, CodeBlocks(t.unitTests));
    SectionShifted(a + b, c, [], 2 + m1, IntegrationHeading, CodeBlocks(t.integrationTests));
    SectionShifted(a + b, c, [], 3 + m1 + m2, E2EHeading, CodeBlocks(t.e2eTests));
  }

  /** `formatReviewAsComment(review)`: the sections joined with "\n". */
  function FormatReviewAsComment(r: PRReviewResult): (comment: string)
    ensures StartsWith(comment, SummaryHeading)
  {
    var s := CommentSections(r);
    JoinStartsWithFirst(s, "\n");
    Join(s, "\n")
  }

  /** Every element of the comment appears in the joined text, and the next
      one starts a single line break after it. */
  lemma CommentElementsInOrder(r: PRReviewResult, k: nat)
    requires k < |CommentSections(r)|
    ensures OccursAt(FormatReviewAsComment(r), CommentSections(r)[k], JoinOffset(CommentSections(r), "\n", k))
    ensures JoinOffset(CommentSections(r), "\n", k + 1)
      == JoinOffset(CommentSections(r), "\n", k) + |CommentSections(r)[k]| + 1
  {
    JoinPlacesPart(CommentSections(r), "\n", k);
    JoinOffsetNext(CommentSections(r), "\n", k);
  }

  /** The joined comment does not determine the result: a strength that
      holds a line break and a bullet renders like two strengths. */
  lemma CommentMergesItems(r: PRReviewResult, x: string, y: string)
    ensures var one := r.(review := r.review.(strengths := [x + "\n" + BulletPrefix + y]));
      var two := r.(review := r.review.(strengths := [x, y]));
      one != two && FormatReviewAsComment(one) == FormatReviewAsComment(two)
  {
    var one := r.(review := r.review.(strengths := [x + "\n" + BulletPrefix + y]));
    var two := r.(review := r.review.(strengths := [x, y]));
    assert |one.review.strengths| != |two.review.strengths|;
    var v := r.review;
    var head := [SummaryHeading, StrengthsHeading];
    var rest := [ImprovementsHeading] + Bullets(v.improvements)
      + [SecurityHeading] + Bullets(v.security)
      + [PerformanceHeading] + Bullets(v.performance)
      + CoverageSections(v.testCoverage) + TestSections(r.tests);
    var px, py := BulletPrefix + x, BulletPrefix + y;
    assert CommentSections(one) == head + [px + "\n" + py] + rest by {
      var item := x + "\n" + BulletPrefix + y;
      assert BulletPrefix + item == px + "\n" + py;
      assert Bullets(one.review.strengths)[0] == BulletPrefix + item;
    }
    assert CommentSections(two) == head + [px, py] + rest by {
      assert Bullets(two.review.strengths) == [px, py];
    }
    JoinMerge(head, px, py, rest, "\n");
  }

  // ---------------------------------------------------------------------
  // Reading the review back from the sections

  function Unbullet(line: string): string {
    if StartsWith(line, BulletPrefix) then line[|BulletPrefix|..] else line
  }

  function Uncode(block: string): string {
    if |CodeOpen| + |CodeClose| <= |block| && StartsWith(block, CodeOpen) && EndsWith(block, CodeClose)
    then block[|CodeOpen|..|block| - |CodeClose|]
    else block
  }

  function Unbullets(lines: seq<string>): (items: seq<string>)
    ensures |items| == |lines|
  {
    seq(|lines|, i requires 0 <= i < |lines| => Unbullet(lines[i]))
  }

  function Uncodes(blocks: seq<string>): (tests: seq<string>)
    ensures |tests| == |blocks|
  {
    seq(|blocks|, i requires 0 <= i < |blocks| => Uncode(blocks[i]))
  }

  predicate Ordered(at: Layout) {
    2 <= at.improvements < at.security < at.performance < at.coverage
    && at.coverage + 3 <= at.suggested && at.suggested + 2 <= at.integration
    && at.integration < at.e2e
  }

  /** The review result whose comment has the sections `s`, given where
      the headings are. */
  function ReadSections(s: seq<string>, at: Layout): PRReviewResult
    requires Ordered(at) && at.e2e < |s|
  {
    var current := s[at.coverage + 1];
    PRReviewResult(
      CodeReview(
        Unbullets(s[2..at.improvements]),
        Unbullets(s[at.improvements + 1..at.security]),
        Unbullets(s[at.security + 1..at.performance]),
        Unbullets(s[at.performance + 1..at.coverage]),
        TestCoverage(
          if StartsWith(current, CurrentLabel) then current[|CurrentLabel|..] else current,
          Unbullets(s[at.coverage + 3..at.suggested]))),
      TestGeneration(
        Uncodes(s[at.suggested + 2..at.integration]),
        Uncodes(s[at.integration + 1..at.e2e]),
        Uncodes(s[at.e2e + 1..])))
  }

  lemma UnbulletsBullets(items: seq<string>)
    ensures Unbullets(Bullets(items)) == items
  {
    var back := Unbullets(Bullets(items));
    forall i | 0 <= i < |items| ensures back[i] == items[i] {
      assert (BulletPrefix + items[i])[|BulletPrefix|..] == items[i];
    }
  }

  lemma UncodesCodeBlocks(tests: seq<string>)
    ensures Uncodes(CodeBlocks(tests)) == tests
  {
    var back := Uncodes(CodeBlocks(tests));
    forall i | 0 <= i < |tests| ensures back[i] == tests[i] {
      var block := CodeOpen + tests[i] + CodeClose;
      assert block[|CodeOpen|..|block| - |CodeClose|] == tests[i];
      assert StartsWith(block, CodeOpen) && EndsWith(block, CodeClose);
    }
  }

  /** A bulleted section reads back as its items. */
  lemma ReadBullets(s: seq<string>, at: nat, end: nat, heading: string, items: seq<string>)
    requires Section(s, at, heading, Bullets(items)) && end == at + 1 + |items|
    ensures Unbullets(s[at + 1..end]) == items
  {
    UnbulletsBullets(items);
  }

  /** A section of code blocks reads back as its tests. */
  lemma ReadCodeBlocks(s: seq<string>, at: nat, end: nat, heading: string, tests: seq<string>)
    requires Section(s, at, heading, CodeBlocks(tests)) && end == at + 1 + |tests|
    ensures Uncodes(s[at + 1..end]) == tests
  {
    UncodesCodeBlocks(tests);
  }

  /** What the layout lemmas establish about the sections of the comment
      for `r`, stated for any list of sections. */
  predicate LaidOut(s: seq<string>, r: PRReviewResult) {
    var v, t, at := r.review, r.tests, LayoutOf(r);
    && Section(s, 1, StrengthsHeading, Bullets(v.strengths))
    && Section(s, at.improvements, ImprovementsHeading, Bullets(v.improvements))
    && Section(s, at.security, SecurityHeading, Bullets(v.security))
    && Section(s, at.performance, PerformanceHeading, Bullets(v.performance))
    && at.coverage + 1 < |s|
    && s[at.coverage + 1] == CurrentLabel + v.testCoverage.current
    && Section(s, at.coverage + 2, MissingLabel, Bullets(v.testCoverage.missing))
    && Section(s, at.suggested + 1, UnitHeading, CodeBlocks(t.unitTests))
    && Section(s, at.integration, IntegrationHeading, CodeBlocks(t.integrationTests))
    && Section(s, at.e2e, E2EHeading, CodeBlocks(t.e2eTests))
    && at.e2e + 1 + |t.e2eTests| == |s|
  }

  lemma CommentLaidOut(r: PRReviewResult)
    ensures LaidOut(CommentSections(r), r)
  {
    CommentReviewLayout(r);
    CommentCoverageLayout(r);
    CommentTestsLayout(r);
  }

  lemma ReadReview(s: seq<string>, r: PRReviewResult)
    requires LaidOut(s, r)
    ensures Ordered(LayoutOf(r)) && LayoutOf(r).e2e < |s|
    ensures var back := ReadSections(s, LayoutOf(r));
      && back.review.strengths == r.review.strengths
      && back.review.improvements == r.review.improvements
      && back.review.security == r.review.security
      && back.review.performance == r.review.performance
  {
    var v, at := r.review, LayoutOf(r);
    assert Ordered(at) && at.e2e < |s|;
    var back := ReadSections(s, at);
    assert back.review.strengths == v.strengths by {
      ReadBullets(s, 1, at.improvements, StrengthsHeading, v.strengths);
    }
    assert back.review.improvements == v.improvements by {
      ReadBullets(s, at.improvements, at.security, ImprovementsHeading, v.improvements);
    }
    assert back.review.security == v.security by {
      ReadBullets(s, at.security, at.performance, SecurityHeading, v.security);
    }
    assert back.review.performance == v.performance by {
      ReadBullets(s, at.performance, at.coverage, PerformanceHeading, v.performance);
    }
  }

  lemma ReadCoverage(s: seq<string>, r: PRReviewResult)
    requires LaidOut(s, r)
    ensures Ordered(LayoutOf(r)) && LayoutOf(r).e2e < |s|
    ensures ReadSections(s, LayoutOf(r)).review.testCoverage == r.review.testCoverage
  {
    var c, at := r.review.testCoverage, LayoutOf(r);
    ReadBullets(s, at.coverage + 2, at.suggested, MissingLabel, c.missing);
    var current := CurrentLabel + c.current;
    assert current[|CurrentLabel|..] == c.current;
  }

  lemma ReadTests(s: seq<string>, r: PRReviewResult)
    requires LaidOut(s, r)
    ensures Ordered(LayoutOf(r)) && LayoutOf(r).e2e < |s|
    ensures ReadSections(s, LayoutOf(r)).tests == r.tests
  {
    var t, at := r.tests, LayoutOf(r);
    assert Ordered(at) && at.e2e < |s|;
    var back := ReadSections(s, at);
    assert back.tests.unitTests == t.unitTests by {
      ReadCodeBlocks(s, at.suggested + 1, at.integration, UnitHeading, t.unitTests);
    }
    assert back.tests.integrationTests == t.integrationTests by {
      ReadCodeBlocks(s, at.integration, at.e2e, IntegrationHeading, t.integrationTests);
    }
    assert back.tests.e2eTests == t.e2eTests by {
      ReadCodeBlocks(s, at.e2e, |s|, E2EHeading, t.e2eTests);
      assert s[at.e2e + 1..] == s[at.e2e + 1..|s|];
    }
  }

  /** The rendering loses nothing: every item of every list, in order, and
      the current coverage can be read back from the sections once the
      positions of the headings are known. */
  lemma CommentSectionsRoundTrip(r: PRReviewResult)
    ensures Ordered(LayoutOf(r)) && LayoutOf(r).e2e < |CommentSections(r)|
    ensures ReadSections(CommentSections(r), LayoutOf(r)) == r
  {
    var s := CommentSections(r);
    CommentLaidOut(r);
    ReadReview(s, r);
    ReadCoverage(s, r);
    ReadTests(s, r);
    var back := ReadSections(s, LayoutOf(r));
    assert back.review == r.review;
  }

  // ---------------------------------------------------------------------
  // The comment URL

  /** The path segments of the comments endpoint before the workspace:
      "https://api.bitbucket.org/2.0/repositories" split on "/". */
  const ApiSegments: seq<string> := ["https:", "", "api.bitbucket.org", "2.0", "repositories"]

  /** The URL `addComment` posts to,
      https://api.bitbucket.org/2.0/repositories/{workspace}/{repo}/pullrequests/{prNumber}/comments,
      written as its segments joined with "/". */
  function CommentUrl(workspace: string, repo: string, prNumber: string): (url: string)
    ensures StartsWith(url, Join(ApiSegments, "/") + "/" + workspace + "/" + repo + "/")
  {
    var tail := [workspace, repo, "pullrequests", prNumber, "comments"];
    JoinAppend(ApiSegments, tail, "/");
    assert Join(tail, "/") == workspace + "/" + (repo + "/" + Join(tail[2..], "/"));
    Join(ApiSegments + tail, "/")
  }

  /** Split on "/", the URL gives back the workspace, repository and PR
      number in their places, provided none of them holds a "/". */
  lemma CommentUrlSegments(workspace: string, repo: string, prNumber: string)
    requires '/' !in workspace && '/' !in repo && '/' !in prNumber
    ensures Split(CommentUrl(workspace, repo, prNumber), '/')
      == ["https:", "", "api.bitbucket.org", "2.0", "repositories", workspace, repo, "pullrequests", prNumber, "comments"]
  {
    var segs := ApiSegments + [workspace, repo, "pullrequests", prNumber, "comments"];
    SplitJoin(segs, '/');
  }

  /** The segments before the workspace join back to
      "https://api.bitbucket.org/2.0/repositories". */
  lemma ApiBase()
    ensures Join(ApiSegments, "/") == "https://api.bitbucket.org/2.0/repositories"
  {
    JoinCons("2.0", ["repositories"], "/");
    JoinCons("api.bitbucket.org", ["2.0", "repositories"], "/");
    JoinCons("", ["api.bitbucket.org", "2.0", "repositories"], "/");
    JoinCons("https:", ["", "api.bitbucket.org", "2.0", "repositories"], "/");
    assert ApiSegments == ["https:"] + ["", "api.bitbucket.org", "2.0", "repositories"];
    RegroupLeft("https:", "/", "", "api.bitbucket.org", "2.0", "repositories");
    ApiBaseLiteral();
  }

  /** The base URL built up from the left, one segment at a time. */
  lemma ApiBaseLiteral()
    ensures "https:" + "/" + "" + "/" + "api.bitbucket.org" + "/" + "2.0" + "/" + "repositories"
      == "https://api.bitbucket.org/2.0/repositories"
  {
    ApiHostLiteral();
    assert "https://api.bitbucket.org" + "/" == "https://api.bitbucket.org/";
    assert "https://api.bitbucket.org/" + "2.0" == "https://api.bitbucket.org/2.0";
    assert "https://api.bitbucket.org/2.0" + "/" == "https://api.bitbucket.org/2.0/";
    assert "https://api.bitbucket.org/2.0/" + "repositories" == "https://api.bitbucket.org/2.0/repositories";
  }

  /** The scheme and host part of the base URL. */
  lemma ApiHostLiteral()
    ensures "https:" + "/" + "" + "/" + "api.bitbucket.org" == "https://api.bitbucket.org"
  {
    assert "https:" + "/" == "https:/";
    assert "https:/" + "" == "https:/";
    assert "https:/" + "/" == "https://";
    assert "https://" + "api.bitbucket.org" == "https://api.bitbucket.org";
  }

  /** Joining five segments, regrouped to the left; stated over variables so
      that no literal enters the reasoning about concatenation. */
  lemma RegroupLeft(a: string, sl: string, b: string, c: string, d: string, e: string)
    ensures a + sl + (b + sl + (c + sl + (d + sl + e)))
      == a + sl + b + sl + c + sl + d + sl + e
  {
  }

  /** Regrouping of the URL's pieces, stated over variables so that no
      literal enters the reasoning about concatenation. */
  lemma Regroup(base: string, sl: string, w: string, r: string, pr: string, n: string, cm: string)
    ensures base + sl + (w + sl + (r + sl + (pr + sl + (n + sl + cm))))
      == (base + sl) + w + sl + r + (sl + pr + sl) + n + (sl + cm)
  {
  }

  /** The URL is the template of the source for every workspace, repository
      and PR number, whatever characters they hold. */
  lemma CommentUrlIsTemplate(workspace: string, repo: string, prNumber: string)
    ensures CommentUrl(workspace, repo, prNumber)
      == "https://api.bitbucket.org/2.0/repositories/" + workspace + "/" + repo
        + "/pullrequests/" + prNumber + "/comments"
  {
    var tail := [workspace, repo, "pullrequests", prNumber, "comments"];
    JoinAppend(ApiSegments, tail, "/");
    ApiBase();
    JoinCons(prNumber, ["comments"], "/");
    JoinCons("pullrequests", [prNumber, "comments"], "/");
    JoinCons(repo, ["pullrequests", prNumber, "comments"], "/");
    JoinCons(workspace, [repo, "pullrequests", prNumber, "comments"], "/");
    assert tail == [workspace] + [repo, "pullrequests", prNumber, "comments"];
    Regroup("https://api.bitbucket.org/2.0/repositories", "/", workspace, repo, "pullrequests", prNumber, "comments");
    assert "https://api.bitbucket.org/2.0/repositories" + "/" == "https://api.bitbucket.org/2.0/repositories/";
    assert "/" + "pullrequests" + "/" == "/pullrequests/";
    assert "/" + "comments" == "/comments";
  }
}
