/**
 * The input schemas of the lesson endpoints: a completion body, and the
 * query string of the lesson listing.
 */
module LessonValidators {
  import opened Wrappers
  import opened Schema
  import opened Json
  import LessonService

  const MAX_SCORE: int := 100

  /** What the completion schema demands, field by field. */
  predicate CompleteLessonAccepts(j: Json)
  {
    && j.JObject?
    && ("score" in j.fields ==>
          && j.fields["score"].JNumber? && IsSafeInteger(j.fields["score"].n)
          && 0.0 <= j.fields["score"].n <= MAX_SCORE as real)
    && "timeSpentSeconds" in j.fields && j.fields["timeSpentSeconds"].JNumber?
    && IsSafeInteger(j.fields["timeSpentSeconds"].n) && j.fields["timeSpentSeconds"].n >= 0.0
  }

  /** Validates a completion body: an optional integer score in 0..100 and a non-negative integer time. */
  function ParseCompleteLesson(j: Json): (r: Parsed<LessonService.CompleteLessonInput>)
    ensures r.Valid? <==> CompleteLessonAccepts(j)
    ensures r.Valid? ==>
              && (r.value.score.Some? <==> "score" in j.fields)
              && (r.value.score.Some? ==> 0 <= r.value.score.value <= MAX_SCORE
                                          && r.value.score.value as real == j.fields["score"].n)
              && 0 <= r.value.timeSpentSeconds <= MAX_SAFE_INTEGER
              && r.value.timeSpentSeconds as real == j.fields["timeSpentSeconds"].n
    ensures r.Invalid? ==> |r.issues| > 0
  {
    if !j.JObject? then Invalid([Issue("", "Invalid input: expected object")])
    else
      var score := Field(j, "score");
      var time := Field(j, "timeSpentSeconds");
      var issues :=
        (if score.None? then []
         else IntegerIssues("score", score, 0, "Too small: expected number to be >=0",
                            Some(MAX_SCORE), "Too big: expected number to be <=100"))
        + IntegerIssues("timeSpentSeconds", time, 0, "Too small: expected number to be >=0", None, "");
      if issues != [] then Invalid(issues)
      else Valid(LessonService.CompleteLessonInput(if score.None? then None else Some(IntegerOf(score)), IntegerOf(time)))
  }

  function EncodeCompleteLesson(input: LessonService.CompleteLessonInput): Json
  {
    var fields := map["timeSpentSeconds" := JNumber(input.timeSpentSeconds as real)];
    match input.score
    case Some(s) => JObject(fields["score" := JNumber(s as real)])
    case None => JObject(fields)
  }

  /** Every completion the schema allows survives being sent and validated. */
  lemma CompleteLessonRoundTrip(input: LessonService.CompleteLessonInput)
    requires input.score.Some? ==> 0 <= input.score.value <= MAX_SCORE
    requires 0 <= input.timeSpentSeconds <= MAX_SAFE_INTEGER
    ensures ParseCompleteLesson(EncodeCompleteLesson(input)) == Valid(input)
  {
    var j := EncodeCompleteLesson(input);
    assert (input.timeSpentSeconds as real).Floor == input.timeSpentSeconds;
    if input.score.Some? {
      assert (input.score.value as real).Floor == input.score.value;
    }
    assert CompleteLessonAccepts(j);
  }

  /** The lesson listing's filters. */
  datatype LessonQuery = LessonQuery(categorySlug: Option<string>, difficulty: Option<Difficulty>,
                                     search: Option<string>, status: Option<LessonStatus>)

  const DIFFICULTIES: seq<string> := ["BEGINNER", "INTERMEDIATE", "ADVANCED"]
  const STATUSES: seq<string> := ["DRAFT", "PUBLISHED", "ARCHIVED"]

  function DifficultyOf(s: string): (d: Difficulty)
    requires s in DIFFICULTIES
    ensures DifficultyName(d) == s
  {
    if s == "BEGINNER" then Beginner else if s == "INTERMEDIATE" then Intermediate else Advanced
  }

  function DifficultyName(d: Difficulty): (s: string)
    ensures s in DIFFICULTIES
  {
    match d
    case Beginner => "BEGINNER"
    case Intermediate => "INTERMEDIATE"
    case Advanced => "ADVANCED"
  }

  function StatusOf(s: string): (st: LessonStatus)
    requires s in STATUSES
    ensures StatusName(st) == s
  {
    if s == "DRAFT" then Draft else if s == "PUBLISHED" then Published else Archived
  }

  function StatusName(st: LessonStatus): (s: string)
    ensures s in STATUSES
  {
    match st
    case Draft => "DRAFT"
    case Published => "PUBLISHED"
    case Archived => "ARCHIVED"
  }

  /** What the query schema demands: every filter optional, the two enums restricted to their names. */
  predicate LessonQueryAccepts(j: Json)
  {
    && j.JObject?
    && ("categorySlug" in j.fields ==> j.fields["categorySlug"].JString?)
    && ("difficulty" in j.fields ==> j.fields["difficulty"].JString? && j.fields["difficulty"].s in DIFFICULTIES)
    && ("search" in j.fields ==> j.fields["search"].JString?)
    && ("status" in j.fields ==> j.fields["status"].JString? && j.fields["status"].s in STATUSES)
  }

  /** Validates the lesson listing's query parameters. */
  function ParseLessonQuery(j: Json): (r: Parsed<LessonQuery>)
    ensures r.Valid? <==> LessonQueryAccepts(j)
    ensures r.Valid? ==>
              && (r.value.difficulty.Some? <==> "difficulty" in j.fields)
              && (r.value.difficulty.Some? ==> DifficultyName(r.value.difficulty.value) == j.fields["difficulty"].s)
              && (r.value.status.Some? <==> "status" in j.fields)
              && (r.value.status.Some? ==> StatusName(r.value.status.value) == j.fields["status"].s)
              && (r.value.categorySlug.Some? <==> "categorySlug" in j.fields)
              && (r.value.categorySlug.Some? ==> r.value.categorySlug.value == j.fields["categorySlug"].s)
              && (r.value.search.Some? <==> "search" in j.fields)
              && (r.value.search.Some? ==> r.value.search.value == j.fields["search"].s)
    ensures r.Invalid? ==> |r.issues| > 0
  {
    if !j.JObject? then Invalid([Issue("", "Invalid input: expected object")])
    else
      var slug := Field(j, "categorySlug");
      var difficulty := Field(j, "difficulty");
      var search := Field(j, "search");
      var status := Field(j, "status");
      var issues :=
        OptionalStringIssues("categorySlug", slug)
        + OptionalEnumIssues("difficulty", difficulty, DIFFICULTIES)
        + OptionalStringIssues("search", search)
        + OptionalEnumIssues("status", status, STATUSES);
      if issues != [] then Invalid(issues)
      else
        Valid(LessonQuery(
          OptionalStringOf(slug),
          if difficulty.None? then None else Some(DifficultyOf(difficulty.value.s)),
          OptionalStringOf(search),
          if status.None? then None else Some(StatusOf(status.value.s))))
  }

  function EncodeLessonQuery(q: LessonQuery): Json
  {
    var f0: map<string, Json> := map[];
    var f1 := if q.categorySlug.Some? then f0["categorySlug" := JString(q.categorySlug.value)] else f0;
    var f2 := if q.difficulty.Some? then f1["difficulty" := JString(DifficultyName(q.difficulty.value))] else f1;
    var f3 := if q.search.Some? then f2["search" := JString(q.search.value)] else f2;
    var f4 := if q.status.Some? then f3["status" := JString(StatusName(q.status.value))] else f3;
    JObject(f4)
  }

  /** Each filter is present in the encoded query exactly when it is set, as its text. */
  lemma EncodeLessonQueryFields(q: LessonQuery)
    ensures var j := EncodeLessonQuery(q);
            && Field(j, "categorySlug") == (if q.categorySlug.Some? then Some(JString(q.categorySlug.value)) else None)
            && Field(j, "difficulty") == (if q.difficulty.Some? then Some(JString(DifficultyName(q.difficulty.value))) else None)
            && Field(j, "search") == (if q.search.Some? then Some(JString(q.search.value)) else None)
            && Field(j, "status") == (if q.status.Some? then Some(JString(StatusName(q.status.value))) else None)
  {
    QueryKeysDistinct();
  }

  /** The four query keys are distinct. */
  lemma QueryKeysDistinct()
    ensures "categorySlug" != "difficulty" && "categorySlug" != "search" && "categorySlug" != "status"
    ensures "difficulty" != "search" && "difficulty" != "status" && "search" != "status"
  {
    assert "categorySlug"[0] != "difficulty"[0] && "categorySlug"[0] != "search"[0];
    assert "categorySlug"[0] != "status"[0] && "difficulty"[0] != "search"[0];
    assert "difficulty"[0] != "status"[0] && "search"[1] != "status"[1];
  }

  /** Every filter combination survives being put in a query string and validated. */
  lemma LessonQueryRoundTrip(q: LessonQuery)
    ensures ParseLessonQuery(EncodeLessonQuery(q)) == Valid(q)
  {
    EncodeLessonQueryFields(q);
    if q.difficulty.Some? {
      var d := q.difficulty.value;
      assert DifficultyOf(DifficultyName(d)) == d;
    }
    if q.status.Some? {
      var st := q.status.value;
      assert StatusOf(StatusName(st)) == st;
    }
  }
}
