# pr-reviewer in Dafny

pr-reviewer is a command-line tool for Bitbucket pull requests. It fetches
a pull request's title, description and unified diff and splits the diff
into per-file changes. It sends two prompts built from these changes to a
generative model: one asks for a code review and one for tests. It cleans
each answer (it extracts a ```` ```json ```` block or strips stray fences,
then trims) and checks the parsed JSON against the `CodeReviewSchema` and
`TestGenerationSchema` zod schemas. The command line (`src/cli.ts`) prints
the combined result as JSON. The repository also has a `BitbucketService`
that renders such a result as one markdown comment and can post it to the
pull request; the command line does not call it.

This project models the deterministic core of that pipeline and of
`BitbucketService`:

- `Wrappers.dfy`: `Option` and `Result`.
- `Strings.dfy`: the JavaScript string built-ins the core uses (`startsWith`,
  substring search, `split` on one character, `join`, `trim` with
  ECMAScript whitespace), with their round trips.
- `Types.dfy`: the records of `src/types/index.ts`, and the two zod schemas
  as validators over a `Json` value. A validator accepts exactly the
  values its schema describes and returns them without unknown keys.
- `PrFetcher.dfy`: the PR number taken from a URL. It also holds
  `parseChanges`, an imperative loop proved equal to a left fold over the
  diff's lines, together with the fold's properties.
- `ReviewService.dfy`: `cleanResponse`, the two prompts, and what happens
  to the model's text after it is returned (the empty-text check,
  cleaning, parsing and validating, and the error messages).
- `BitbucketService.dfy`: `formatReviewAsComment` and the comments
  endpoint URL. The `sections` array the comment is joined from is proved
  to lose nothing: read at the heading positions, which follow from the
  list lengths, it gives back the review result.

`JSON.parse` is a parameter (`parse: string -> Result<Json, string>`) of
the functions that use it. The model's answer is an input string.

Three behaviours of the code that a reader might expect to be different:

- The comment has twelve fixed headings and labels plus one element per
  item of the eight lists. It has no separate summary paragraph.
- There is no fallback to another model and no repair of malformed JSON.
- `cleanResponse` tries the fenced block first. Only when there is none
  does it strip fences from the whole text.

## Model

| member | source | states |
|---|---|---|
| Strings.Find | src/services/reviewService.ts:20 | the leftmost occurrence at or after `from`, or none at all |
| Strings.Split | src/utils/prFetcher.ts:63 | at least one piece, and no piece contains the separator |
| Strings.JoinSplit | src/utils/prFetcher.ts:63 | joining the pieces of `split(sep)` with `sep` gives back the string |
| Strings.SplitJoin | src/utils/prFetcher.ts:72 | splitting a join of separator-free pieces gives back the pieces |
| Strings.JoinAppend | src/services/bitbucketService.ts:42 | joining two non-empty lists is joining each and putting one separator between them |
| Strings.JoinStartsWithFirst | src/services/bitbucketService.ts:42 | a join of a non-empty list starts with its first part |
| Strings.JoinPlacesPart | src/services/bitbucketService.ts:42 | every part of a join sits in the joined string at its offset |
| Strings.JoinOffsetNext | src/services/bitbucketService.ts:42 | consecutive parts are one separator apart, left to right |
| Strings.Trim | src/services/reviewService.ts:22 | the result has whitespace at neither end and is no longer than the input |
| Strings.TrimIsSlice | src/services/reviewService.ts:29 | the trim is the input minus leading and trailing whitespace only |
| Strings.TrimKeepsAbsent | src/services/reviewService.ts:29 | trimming never creates an occurrence of a string |
| Strings.TrimIdempotent | src/services/reviewService.ts:22 | trimming twice equals trimming once |
| Types.ChangeTypeNamesDistinct | src/types/index.ts:32 | the three type literals are pairwise different, so a literal names one type |
| Types.StringsToJson | src/types/index.ts:4 | a list of strings becomes a string array holding them in order |
| Types.ElementsAsStrings | src/types/index.ts:4-7 | an array is accepted iff every element is a string; the strings come back in order |
| Types.StringArrayField | src/types/index.ts:4-7 | a `z.array(z.string())` field is accepted iff present as an array of strings, and the result re-encodes to it |
| Types.StringField | src/types/index.ts:9 | a `z.string()` field is accepted iff present as a string, and the result is that string |
| Types.CoverageField | src/types/index.ts:8-11 | `testCoverage` is accepted iff it is an object with string `current` and string-array `missing` |
| Types.ValidateCodeReview | src/types/index.ts:3-12 | accepts exactly the objects the review schema describes; the result is the input without unknown keys |
| Types.ValidateTestGeneration | src/types/index.ts:16-20 | accepts exactly the objects the test schema describes; the result is the input without unknown keys |
| Types.StrippedReviewFields | src/types/index.ts:3-12 | the stripped review holds the five declared keys, and `testCoverage` holds its two |
| Types.StrippedTestsFields | src/types/index.ts:16-20 | the stripped test set holds exactly its three declared keys |
| Types.StringsRoundTrip | src/types/index.ts:4 | reading back an encoded string list gives the list |
| Types.ReviewRoundTrip | src/types/index.ts:3-12 | validating the JSON of a review gives that review back |
| Types.TestsRoundTrip | src/types/index.ts:16-20 | validating the JSON of a test set gives that test set back |
| Types.ReviewIgnoresUnknownKey | src/types/index.ts:3-12 | an undeclared key changes neither acceptance nor the review returned |
| Types.TestsIgnoreUnknownKey | src/types/index.ts:16-20 | an undeclared key changes neither acceptance nor the test set returned |
| Types.ReviewRequiresMissingTests | src/types/index.ts:8-11 | a `testCoverage` without `missing` is rejected |
| Types.ReviewRejectsNumberItem | src/types/index.ts:4-7 | a number inside a string list is rejected, not converted |
| PrFetcher.FindPRMatch | src/utils/prFetcher.ts:5 | the leftmost place where `pull-requests/` is followed by a digit, or none |
| PrFetcher.DigitRun | src/utils/prFetcher.ts:5 | the greedy `\d+`: the longest run of digits at that place |
| PrFetcher.ExtractPRNumber | src/utils/prFetcher.ts:5-11 | succeeds iff the pattern matches somewhere; the value is the non-empty digit run at the leftmost match; otherwise the "Invalid PR URL format" error |
| PrFetcher.ExtractPRNumberOfBuiltUrl | src/utils/prFetcher.ts:5-11 | a URL made of a prefix, `pull-requests/`, a number and a non-digit gives back that number |
| PrFetcher.HeaderPathOfGitHeader | src/utils/prFetcher.ts:72 | the header `diff --git a/<source> b/<target>` of space-free paths is a well-formed header whose path is `<source>`, the token without its `a/` |
| PrFetcher.ParseChanges | src/utils/prFetcher.ts:56-93 | the loop returns the fold of one step per line plus the final flush; the record paths are the non-empty header paths in order, and none is empty |
| PrFetcher.HeaderPathsNonEmpty | src/utils/prFetcher.ts:65-72 | at most one path per line, and every path kept is non-empty |
| PrFetcher.StepPaths | src/utils/prFetcher.ts:64-81 | one line changes the eventual record paths only through a header |
| PrFetcher.RunPaths | src/utils/prFetcher.ts:63-90 | a run of lines adds exactly the non-empty header paths of those lines |
| PrFetcher.ParsePaths | src/utils/prFetcher.ts:63-90 | one record per header with a non-empty path, in line order |
| PrFetcher.RunConcat | src/utils/prFetcher.ts:63 | scanning `a + b` equals scanning `a` and then `b` |
| PrFetcher.RunBody | src/utils/prFetcher.ts:75-81 | lines between headers only set the type and append the non-marker lines, each with "\n" |
| PrFetcher.ParsePreamble | src/utils/prFetcher.ts:63-90 | lines before the first header produce no record |
| PrFetcher.ParseEmptyDiff | src/utils/prFetcher.ts:63-92 | the empty diff gives no changes |
| PrFetcher.ParseBlock | src/utils/prFetcher.ts:64-90 | a header and its body add one record (header path, body content, last marker's type, "modified" by default) when the path is non-empty, and none otherwise |
| PrFetcher.BodyContentAppend | src/utils/prFetcher.ts:79-80 | the content of two runs of body lines is the first's content followed by the second's |
| PrFetcher.BodyContentSkipsMarkers | src/utils/prFetcher.ts:75-78 | a `new file` or `deleted file` line anywhere among the body lines leaves no trace in the content |
| PrFetcher.BodyContentKeepsLine | src/utils/prFetcher.ts:79-80 | any other body line reaches the content in its place, followed by "\n" |
| ReviewService.FencedBlock | src/services/reviewService.ts:20 | none iff no "```json" plus newline is followed by a newline plus "```"; otherwise the text between the first opening and the nearest closing after it |
| ReviewService.RemoveFences | src/services/reviewService.ts:27-28 | a global fence removal never lengthens the text |
| ReviewService.RemoveFencesAbsent | src/services/reviewService.ts:27-28 | text in which the fence does not occur is left unchanged |
| ReviewService.RemoveFencesFirst | src/services/reviewService.ts:27-28 | the leftmost fence is removed with at most one newline after it; the text before it is kept as it is and the removal goes on after it |
| ReviewService.StripFences | src/services/reviewService.ts:26-28 | the stripped text is no longer than the input and holds no "```" |
| ReviewService.CleanResponse | src/services/reviewService.ts:18-30 | the cleaned text has whitespace at neither end |
| ReviewService.CleanResponseFenced | src/services/reviewService.ts:20-23 | with a fenced block, the result is its trimmed interior |
| ReviewService.CleanResponseUnfenced | src/services/reviewService.ts:25-29 | without one, the result is the trimmed text with fences stripped |
| ReviewService.CleanResponseOfFencedPayload | src/services/reviewService.ts:20-23 | fencing a payload without a closing fence and cleaning it gives back the trimmed payload |
| ReviewService.FencedBlockOfPayload | src/services/reviewService.ts:20 | the lazy group of a fenced payload is exactly the payload |
| ReviewService.NoFenceLeft | src/services/reviewService.ts:28 | after removing every ```` ``` ```` none is left |
| ReviewService.CleanResponseUnfencedHasNoFence | src/services/reviewService.ts:25-29 | on the stripping path the result holds no ```` ``` ```` |
| ReviewService.CleanResponseWithoutFence | src/services/reviewService.ts:18-30 | text without any "```" (inline code included) comes back only trimmed |
| ReviewService.ReviewChangeTexts | src/services/reviewService.ts:107-115 | one rendering per change |
| ReviewService.TestChangeTexts | src/services/reviewService.ts:141-148 | one rendering per change |
| ReviewService.ReviewChangeTextEmbeds | src/services/reviewService.ts:109-114 | a change's rendering holds its path, type literal and content, at their label offsets |
| ReviewService.TestChangeTextEmbeds | src/services/reviewService.ts:143-147 | a change's test rendering holds its path and content, at their label offsets |
| ReviewService.BuildReviewPrompt | src/services/reviewService.ts:100-136 | the review prompt starts with the fixed head, title, description and "Changes:" label, and ends with the fixed schema instructions |
| ReviewService.BuildTestPrompt | src/services/reviewService.ts:138-163 | the test prompt starts with the fixed head and ends with the fixed schema instructions |
| ReviewService.ReviewPromptEmbedsTitle | src/services/reviewService.ts:101-104 | the review prompt holds the title and, after it, the description |
| ReviewService.ReviewPromptEmbedsChange | src/services/reviewService.ts:100-136 | the review prompt holds the rendering of change k at its offset; the next rendering starts one line break after it |
| ReviewService.TestPromptEmbedsChange | src/services/reviewService.ts:138-163 | the test prompt holds the rendering of change k at its offset; the next rendering starts one line break after it |
| ReviewService.TestPromptUsesPathsAndContents | src/services/reviewService.ts:138-163 | the test prompt depends on the changes' paths and contents only |
| ReviewService.ReviewFromText | src/services/reviewService.ts:47-63 | empty text gives "Failed to generate review"; otherwise success iff the cleaned text parses to a valid review, whose value is the stripped JSON; failures carry the parse-error prefix |
| ReviewService.TestsFromText | src/services/reviewService.ts:81-97 | the same for the test answer and its messages |
| ReviewService.ReviewFromFencedAnswer | src/services/reviewService.ts:47-55 | an answer fencing the JSON of a review yields that review |
| ReviewService.TestsFromFencedAnswer | src/services/reviewService.ts:81-89 | an answer fencing the JSON of a test set yields that test set |
| BitbucketService.Bullets | src/services/bitbucketService.ts:20 | one bullet line per item |
| BitbucketService.CodeBlocks | src/services/bitbucketService.ts:33 | one code block per test |
| BitbucketService.ReviewSections | src/services/bitbucketService.ts:18-26 | the review part has five headings plus one line per item |
| BitbucketService.CoverageSections | src/services/bitbucketService.ts:27-30 | the coverage part has three fixed elements plus one line per missing test |
| BitbucketService.TestSections | src/services/bitbucketService.ts:31-39 | the suggested-tests part has four headings plus one block per test |
| BitbucketService.CommentSections | src/services/bitbucketService.ts:17-40 | twelve fixed elements plus one per item of the eight lists |
| BitbucketService.CommentReviewLayout | src/services/bitbucketService.ts:18-26 | each review heading is at its place, followed by its items in order |
| BitbucketService.CommentCoverageLayout | src/services/bitbucketService.ts:27-30 | the coverage heading, current coverage and missing tests, right after the performance items |
| BitbucketService.CommentTestsLayout | src/services/bitbucketService.ts:31-39 | the suggested-tests headings, each followed by its code blocks, up to the end |
| BitbucketService.CommentLaidOut | src/services/bitbucketService.ts:17-40 | every heading and item of the comment is at its place |
| BitbucketService.FormatReviewAsComment | src/services/bitbucketService.ts:16-43 | the comment starts with "## Code Review Summary" |
| BitbucketService.CommentElementsInOrder | src/services/bitbucketService.ts:42 | every element sits in the comment at its offset, and the next one starts a single line break after it |
| BitbucketService.CommentMergesItems | src/services/bitbucketService.ts:16-43 | two different results, one strength `x\n- y` against the two strengths `x` and `y`, give the same comment string |
| BitbucketService.UnbulletsBullets | src/services/bitbucketService.ts:20 | removing the bullets gives back the items |
| BitbucketService.UncodesCodeBlocks | src/services/bitbucketService.ts:33 | unwrapping the code blocks gives back the tests |
| BitbucketService.ReadReview | src/services/bitbucketService.ts:18-26 | the review lists read back from a laid-out comment |
| BitbucketService.ReadCoverage | src/services/bitbucketService.ts:27-30 | the test coverage reads back from a laid-out comment |
| BitbucketService.ReadTests | src/services/bitbucketService.ts:31-39 | the three test lists read back from a laid-out comment |
| BitbucketService.CommentSectionsRoundTrip | src/services/bitbucketService.ts:16-43 | reading the comment's elements at the heading positions gives back the whole review result |
| BitbucketService.CommentUrl | src/services/bitbucketService.ts:57 | the URL starts with the API base, the workspace and the repository |
| BitbucketService.CommentUrlIsTemplate | src/services/bitbucketService.ts:57 | for every workspace, repository and PR number, the URL is exactly `https://api.bitbucket.org/2.0/repositories/<workspace>/<repo>/pullrequests/<number>/comments` |
| BitbucketService.CommentUrlSegments | src/services/bitbucketService.ts:57 | split on "/", the URL gives the workspace, repository and PR number in their places |

## Left out

- The HTTP fetches of `fetchPRDetails` (src/utils/prFetcher.ts:12-53) are network I/O. Their results are inputs: the diff text for `ParseChanges`, and the `PRContext` for the prompts.
- The POST of `addComment` (src/services/bitbucketService.ts:58-94) and its logging are network I/O. The model keeps the comment body and the URL.
- The Gemini calls in `generateReview` and `generateTests` (src/services/reviewService.ts:32-45, 66-79) are network I/O. The returned text is an input.
- `reviewPR` (src/services/reviewService.ts:165-172) only runs the two generations concurrently and pairs their results. Concurrency is not modelled; `PRReviewResult` is the pair.
- `JSON.parse` is a parameter. The text of its error messages and of zod's messages is not modelled; only the prefix the source adds is.
- The "Unknown error" branches (src/services/reviewService.ts:62, 96) are left out, because `JSON.parse` and zod only throw `Error` instances.
- JSON numbers are a `real` in `JNumber`. No schema accepts a number, so IEEE 754 double precision and number syntax are not modelled.
- Console logging, the CLI entry points (src/index.ts, src/cli.ts) and configuration are left out.
- Strings are sequences of Dafny `char`, not UTF-16 code units. Characters outside the Basic Multilingual Plane count as one element, not two.
- PrFetcher.ParseChanges: requires every `diff --git` line to have a third space-separated token. On any other header line the source throws a `TypeError` (reading `substring` of `undefined`), and that exception is not modelled.
- BitbucketService.CommentUrl: its own contract states only the prefix up to the repository. `CommentUrlIsTemplate` states the whole URL for every input.
- ReviewService.ReviewPromptEmbedsChange: states the offsets over the renderings of the changes. What each rendering holds is stated separately, by `ReviewChangeTextEmbeds`.
- ReviewService.TestPromptEmbedsChange: the same, over the test renderings. What each of them holds is stated by `TestChangeTextEmbeds`.
- BitbucketService.CommentSectionsRoundTrip: the round trip is over the `sections` array, read at heading positions computed from the result's own list lengths. The joined comment string does not determine the result: the strengths `["a\n- b"]` and `["a", "b"]` render alike, as `CommentMergesItems` states.
- Strings.Join: it has no contract of its own, because a contract on it multiplies the cost of every proof about the prompts and the comment. Its properties are the lemmas `JoinAppend`, `JoinStartsWithFirst`, `JoinPlacesPart`, `JoinOffsetNext`, `JoinSplit` and `SplitJoin`.
- PrFetcher.HeaderPath: it has no contract of its own, for the same reason, since it appears in every step of the fold. `HeaderPathOfGitHeader` states what it gives for a git header.
