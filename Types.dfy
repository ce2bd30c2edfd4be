/** The shared data model (src/types/index.ts): the parsed-JSON values that
    the model's answers decode to, the two zod schemas as total validators
    over them, and the records exchanged between the pipeline's stages. */
module Types {
  import opened Wrappers

  /** A value as `JSON.parse` returns it. An object is the map from its keys
      to their values (a key repeated in the text keeps its last value, as
      `JSON.parse` does). */
  datatype Json =
    | JNull
    | JBool(b: bool)
    | JNumber(n: real)
    | JString(str: string)
    | JArray(items: seq<Json>)
    | JObject(fields: map<string, Json>)

  /** `FileChange.type`: exactly one of the three literals. */
  datatype ChangeType = Added | Modified | Deleted

  /** The literal the source stores for each change type. */
  function ChangeTypeName(t: ChangeType): string {
    match t
    case Added => "added"
    case Modified => "modified"
    case Deleted => "deleted"
  }

  lemma ChangeTypeNamesDistinct(s: ChangeType, t: ChangeType)
    requires ChangeTypeName(s) == ChangeTypeName(t)
    ensures s == t
  {
  }

  datatype FileChange = FileChange(path: string, content: string, kind: ChangeType)

  datatype PRContext = PRContext(
    title: string,
    description: string,
    changes: seq<FileChange>,
    baseBranch: string,
    targetBranch: string)

  datatype TestCoverage = TestCoverage(current: string, missing: seq<string>)

  /** What `CodeReviewSchema.parse` returns: only the declared keys. */
  datatype CodeReview = CodeReview(
    strengths: seq<string>,
    improvements: seq<string>,
    security: seq<string>,
    performance: seq<string>,
    testCoverage: TestCoverage)

  /** What `TestGenerationSchema.parse` returns. */
  datatype TestGeneration = TestGeneration(
    unitTests: seq<string>,
    integrationTests: seq<string>,
    e2eTests: seq<string>)

  datatype PRReviewResult = PRReviewResult(review: CodeReview, tests: TestGeneration)

  // ---------------------------------------------------------------------
  // The schemas, stated declaratively

  /** `z.array(z.string())`: an array whose every element is a string. */
  predicate IsStringArray(j: Json) {
    j.JArray? && forall i | 0 <= i < |j.items| :: j.items[i].JString?
  }

  predicate HasStringArray(fields: map<string, Json>, key: string) {
    key in fields && IsStringArray(fields[key])
  }

  /** `z.object({current: z.string(), missing: z.array(z.string())})`. */
  predicate IsTestCoverage(j: Json) {
    && j.JObject?
    && "current" in j.fields && j.fields["current"].JString?
    && HasStringArray(j.fields, "missing")
  }

  /** `CodeReviewSchema` accepts `j`. */
  predicate IsCodeReview(j: Json) {
    && j.JObject?
    && HasStringArray(j.fields, "strengths")
    && HasStringArray(j.fields, "improvements")
    && HasStringArray(j.fields, "security")
    && HasStringArray(j.fields, "performance")
    && "testCoverage" in j.fields && IsTestCoverage(j.fields["testCoverage"])
  }

  /** `TestGenerationSchema` accepts `j`. */
  predicate IsTestGeneration(j: Json) {
    && j.JObject?
    && HasStringArray(j.fields, "unitTests")
    && HasStringArray(j.fields, "integrationTests")
    && HasStringArray(j.fields, "e2eTests")
  }

  const ReviewKeys: set<string> := {"strengths", "improvements", "security", "performance", "testCoverage"}
  const CoverageKeys: set<string> := {"current", "missing"}
  const TestKeys: set<string> := {"unitTests", "integrationTests", "e2eTests"}

  /** The object restricted to `keys`: what `z.object` keeps of its input. */
  function Restrict(fields: map<string, Json>, keys: set<string>): map<string, Json> {
    map k | k in fields && k in keys :: fields[k]
  }

  /** The JSON value a successful `CodeReviewSchema.parse` of `j` returns:
      unknown keys dropped, at the top level and inside `testCoverage`. */
  function StrippedReview(j: Json): Json
    requires IsCodeReview(j)
  {
    var top := Restrict(j.fields, ReviewKeys);
    JObject(top["testCoverage" := JObject(Restrict(j.fields["testCoverage"].fields, CoverageKeys))])
  }

  function StrippedTests(j: Json): Json
    requires IsTestGeneration(j)
  {
    JObject(Restrict(j.fields, TestKeys))
  }

  lemma StrippedReviewFields(j: Json)
    requires IsCodeReview(j)
    ensures StrippedReview(j) == JObject(map[
      "strengths" := j.fields["strengths"],
      "improvements" := j.fields["improvements"],
      "security" := j.fields["security"],
      "performance" := j.fields["performance"],
      "testCoverage" := JObject(map[
        "current" := j.fields["testCoverage"].fields["current"],
        "missing" := j.fields["testCoverage"].fields["missing"]])])
  {
    var inner := j.fields["testCoverage"].fields;
    assert Restrict(inner, CoverageKeys) == map["current" := inner["current"], "missing" := inner["missing"]];
    var top := Restrict(j.fields, ReviewKeys);
    assert top.Keys == ReviewKeys;
  }

  lemma StrippedTestsFields(j: Json)
    requires IsTestGeneration(j)
    ensures StrippedTests(j) == JObject(map[
      "unitTests" := j.fields["unitTests"],
      "integrationTests" := j.fields["integrationTests"],
      "e2eTests" := j.fields["e2eTests"]])
  {
    assert Restrict(j.fields, TestKeys).Keys == TestKeys;
  }

  // ---------------------------------------------------------------------
  // Encoding validated values back to JSON

  function StringsToJson(xs: seq<string>): (j: Json)
    ensures IsStringArray(j) && |j.items| == |xs|
    ensures forall i | 0 <= i < |xs| :: j.items[i] == JString(xs[i])
  {
    JArray(seq(|xs|, i requires 0 <= i < |xs| => JString(xs[i])))
  }

  function ReviewToJson(v: CodeReview): Json {
    JObject(map[
      "strengths" := StringsToJson(v.strengths),
      "improvements" := StringsToJson(v.improvements),
      "security" := StringsToJson(v.security),
      "performance" := StringsToJson(v.performance),
      "testCoverage" := JObject(map[
        "current" := JString(v.testCoverage.current),
        "missing" := StringsToJson(v.testCoverage.missing)])])
  }

  function TestsToJson(v: TestGeneration): Json {
    JObject(map[
      "unitTests" := StringsToJson(v.unitTests),
      "integrationTests" := StringsToJson(v.integrationTests),
      "e2eTests" := StringsToJson(v.e2eTests)])
  }

  // ---------------------------------------------------------------------
  // The validators (`Schema.parse`), total and failing with a message

  /** The strings of an array's elements, in order; fails at the first
      element that is not a string (no coercion). */
  function ElementsAsStrings(items: seq<Json>, key: string): (r: Result<seq<string>, string>)
    ensures r.Success? <==> forall i | 0 <= i < |items| :: items[i].JString?
    ensures r.Success? ==> |r.value| == |items|
    ensures r.Success? ==> forall i | 0 <= i < |items| :: items[i] == JString(r.value[i])
  {
    if items == [] then Success([])
    else if !items[0].JString? then Failure(key + ": Expected string")
    else
      match ElementsAsStrings(items[1..], key)
      case Failure(e) => Failure(e)
      case Success(rest) => Success([items[0].str] + rest)
  }

  function StringArrayField(fields: map<string, Json>, key: string): (r: Result<seq<string>, string>)
    ensures r.Success? <==> HasStringArray(fields, key)
    ensures r.Success? ==> fields[key] == StringsToJson(r.value)
  {
    if key !in fields then Failure(key + ": Required")
    else if !fields[key].JArray? then Failure(key + ": Expected array")
    else ElementsAsStrings(fields[key].items, key)
  }

  function StringField(fields: map<string, Json>, key: string): (r: Result<string, string>)
    ensures r.Success? <==> key in fields && fields[key].JString?
    ensures r.Success? ==> fields[key] == JString(r.value)
  {
    if key !in fields then Failure(key + ": Required")
    else if !fields[key].JString? then Failure(key + ": Expected string")
    else Success(fields[key].str)
  }

  function CoverageField(fields: map<string, Json>): (r: Result<TestCoverage, string>)
    ensures r.Success? <==> "testCoverage" in fields && IsTestCoverage(fields["testCoverage"])
    ensures r.Success? ==>
      && fields["testCoverage"].fields["current"] == JString(r.value.current)
      && fields["testCoverage"].fields["missing"] == StringsToJson(r.value.missing)
  {
    if "testCoverage" !in fields then Failure("testCoverage: Required")
    else if !fields["testCoverage"].JObject? then Failure("testCoverage: Expected object")
    else
      var inner := fields["testCoverage"].fields;
      var current :- StringField(inner, "current");
      var missing :- StringArrayField(inner, "missing");
      Success(TestCoverage(current, missing))
  }

  /** `CodeReviewSchema.parse`: accepts exactly the values the schema
      describes and returns them without their unknown keys. */
  function ValidateCodeReview(j: Json): (r: Result<CodeReview, string>)
    ensures r.Success? <==> IsCodeReview(j)
    ensures r.Success? ==> ReviewToJson(r.value) == StrippedReview(j)
  {
    if !j.JObject? then Failure("Expected object")
    else
      var strengths :- StringArrayField(j.fields, "strengths");
      var improvements :- StringArrayField(j.fields, "improvements");
      var security :- StringArrayField(j.fields, "security");
      var performance :- StringArrayField(j.fields, "performance");
      var coverage :- CoverageField(j.fields);
      var v := CodeReview(strengths, improvements, security, performance, coverage);
      StrippedReviewFields(j);
      Success(v)
  }

  /** `TestGenerationSchema.parse`. */
  function ValidateTestGeneration(j: Json): (r: Result<TestGeneration, string>)
    ensures r.Success? <==> IsTestGeneration(j)
    ensures r.Success? ==> TestsToJson(r.value) == StrippedTests(j)
  {
    if !j.JObject? then Failure("Expected object")
    else
      var unitTests :- StringArrayField(j.fields, "unitTests");
      var integrationTests :- StringArrayField(j.fields, "integrationTests");
      var e2eTests :- StringArrayField(j.fields, "e2eTests");
      var v := TestGeneration(unitTests, integrationTests, e2eTests);
      StrippedTestsFields(j);
      Success(v)
  }

  // ---------------------------------------------------------------------
  // Properties of the schemas

  lemma StringsRoundTrip(xs: seq<string>, key: string)
    ensures ElementsAsStrings(StringsToJson(xs).items, key) == Success(xs)
  {
    var r := ElementsAsStrings(StringsToJson(xs).items, key);
    assert r.Success?;
    assert r.value == xs;
  }

  /** Validating a validated review again yields the same review. */
  lemma ReviewRoundTrip(v: CodeReview)
    ensures ValidateCodeReview(ReviewToJson(v)) == Success(v)
  {
    StringsRoundTrip(v.strengths, "strengths");
    StringsRoundTrip(v.improvements, "improvements");
    StringsRoundTrip(v.security, "security");
    StringsRoundTrip(v.performance, "performance");
    StringsRoundTrip(v.testCoverage.missing, "missing");
  }

  lemma TestsRoundTrip(v: TestGeneration)
    ensures ValidateTestGeneration(TestsToJson(v)) == Success(v)
  {
    StringsRoundTrip(v.unitTests, "unitTests");
    StringsRoundTrip(v.integrationTests, "integrationTests");
    StringsRoundTrip(v.e2eTests, "e2eTests");
  }

  /** A key the schema does not declare neither causes a rejection nor
      changes the validated value. */
  lemma ReviewIgnoresUnknownKey(fields: map<string, Json>, key: string, x: Json)
    requires key !in ReviewKeys
    ensures ValidateCodeReview(JObject(fields[key := x])) == ValidateCodeReview(JObject(fields))
  {
  }

  lemma TestsIgnoreUnknownKey(fields: map<string, Json>, key: string, x: Json)
    requires key !in TestKeys
    ensures ValidateTestGeneration(JObject(fields[key := x])) == ValidateTestGeneration(JObject(fields))
  {
  }

  /** A review whose `testCoverage` lacks `missing` is rejected. */
  lemma ReviewRequiresMissingTests(j: Json)
    requires j.JObject? && "testCoverage" in j.fields && j.fields["testCoverage"].JObject?
    requires "missing" !in j.fields["testCoverage"].fields
    ensures ValidateCodeReview(j).Failure?
  {
  }

  /** A number where a string is expected is rejected, not converted. */
  lemma ReviewRejectsNumberItem(j: Json, key: string, i: nat)
    requires j.JObject? && key in ReviewKeys - {"testCoverage"} && key in j.fields
    requires j.fields[key].JArray? && i < |j.fields[key].items| && j.fields[key].items[i].JNumber?
    ensures ValidateCodeReview(j).Failure?
  {
  }
}
