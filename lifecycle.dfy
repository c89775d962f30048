/**
 * Properties of whole sessions: a session is a sequence of stage events
 * applied to the cache, starting from the empty cache a login creates.
 */
module Lifecycle {
  import opened Wrappers
  import opened Json
  import PostsText
  import opened Pipeline

  /** One user action: a URL submitted (with both provider answers) or a button pressed (with the model's answer). */
  datatype Event =
    | FetchData(info: Option<Json>, posts: Option<Json>)
    | AnalyzePosts(analysis: Option<string>)
    | GenerateExamplePost(example: Option<string>)

  /** The keys an event's stage may write. */
  function Writes(e: Event): set<StageKey> {
    match e
    case FetchData(_, _) => {CompanyInfo, CompanyPosts}
    case AnalyzePosts(_) => {PostsAnalysis}
    case GenerateExamplePost(_) => {ExamplePost}
  }

  /** The stage an event triggers. */
  function Step(c: Cache, e: Event): Outcome {
    match e
    case FetchData(info, posts) => Fetch(c, info, posts)
    case AnalyzePosts(answer) => Analyze(c, answer)
    case GenerateExamplePost(answer) => GenerateExample(c, answer)
  }

  /** The cache after a sequence of events. */
  function Run(c: Cache, es: seq<Event>): Cache
    decreases |es|
  {
    if es == [] then c else Run(Step(c, es[0]).cache, es[1..])
  }

  /**
   * The invariant of every reachable cache: profile and posts are stored
   * together or not at all, every stored value is truthy, analysis and
   * example are texts, an analysis exists only after a fetch and an example
   * only after an analysis.
   */
  predicate Valid(c: Cache) {
    && (CompanyInfo in c <==> CompanyPosts in c)
    && (forall k :: k in c ==> Truthy(c[k]))
    && (PostsAnalysis in c ==> c[PostsAnalysis].Str? && CompanyInfo in c)
    && (ExamplePost in c ==> c[ExamplePost].Str? && PostsAnalysis in c)
  }

  /** The pipeline state a cache is in: 0 empty, 1 fetched, 2 analyzed, 3 example generated. */
  function Progress(c: Cache): nat {
    if ExamplePost in c then 3
    else if PostsAnalysis in c then 2
    else if CompanyInfo in c then 1
    else 0
  }

  lemma EmptyIsValid()
    ensures Valid(map[]) && Progress(map[]) == 0
  {
  }

  /** Every stage keeps the invariant. */
  lemma StepPreservesValid(c: Cache, e: Event)
    requires Valid(c)
    ensures Valid(Step(c, e).cache)
  {
  }

  /**
   * Isolation: a stage writes only its own keys, changes the cache only when
   * it reports success, and never removes a key, so it never moves the
   * pipeline back to an earlier state.
   */
  lemma StepIsolation(c: Cache, e: Event)
    ensures SameExcept(c, Step(c, e).cache, Writes(e))
    ensures Step(c, e).cache != c ==> Step(c, e).notice == Stored
    ensures c.Keys <= Step(c, e).cache.Keys
    ensures Progress(c) <= Progress(Step(c, e).cache)
  {
  }

  /** Every cache a session reaches from a valid one is valid. */
  lemma {:induction false} RunPreservesValid(c: Cache, es: seq<Event>)
    requires Valid(c)
    ensures Valid(Run(c, es))
    decreases |es|
  {
    if es != [] {
      StepPreservesValid(c, es[0]);
      RunPreservesValid(Step(c, es[0]).cache, es[1..]);
    }
  }

  /** A key no event of the sequence may write holds the same value (or stays absent) all along. */
  lemma {:induction false} RunLeavesOtherKeys(c: Cache, es: seq<Event>, k: StageKey)
    requires forall i :: 0 <= i < |es| ==> k !in Writes(es[i])
    ensures Slot(Run(c, es), k) == Slot(c, k)
    decreases |es|
  {
    if es != [] {
      StepIsolation(c, es[0]);
      RunLeavesOtherKeys(Step(c, es[0]).cache, es[1..], k);
    }
  }

  /** No sequence of events removes a key or moves the pipeline back. */
  lemma {:induction false} RunNeverRegresses(c: Cache, es: seq<Event>)
    ensures c.Keys <= Run(c, es).Keys
    ensures Progress(c) <= Progress(Run(c, es))
    decreases |es|
  {
    if es != [] {
      StepIsolation(c, es[0]);
      RunNeverRegresses(Step(c, es[0]).cache, es[1..]);
    }
  }

  /** A session in which no event succeeds leaves the cache exactly as it found it. */
  lemma {:induction false} FailuresChangeNothing(c: Cache, es: seq<Event>)
    requires forall i :: 0 <= i < |es| ==> Step(Run(c, es[..i]), es[i]).notice != Stored
    ensures Run(c, es) == c
    decreases |es|
  {
    if es != [] {
      assert es[..0] == [];
      assert Step(c, es[0]).cache == c;
      forall i | 0 <= i < |es[1..]|
        ensures Step(Run(c, es[1..][..i]), es[1..][i]).notice != Stored
      {
        assert es[..i + 1] == [es[0]] + es[1..][..i];
        RunCons(c, es[0], es[1..][..i]);
      }
      FailuresChangeNothing(c, es[1..]);
    }
  }

  /** Running a sequence that starts with `e` runs `e` first. */
  lemma RunCons(c: Cache, e: Event, es: seq<Event>)
    ensures Run(c, [e] + es) == Run(Step(c, e).cache, es)
  {
  }

  /** Last write wins: analyzing twice with the same stored inputs keeps the second answer and nothing else changes. */
  lemma AnalyzeTwiceKeepsSecond(c: Cache, first: string, second: string)
    requires Analyze(c, Some(first)).notice == Stored
    requires second != ""
    ensures Run(c, [AnalyzePosts(Some(first)), AnalyzePosts(Some(second))]) == c[PostsAnalysis := Str(second)]
  {
    var es := [AnalyzePosts(Some(first)), AnalyzePosts(Some(second))];
    var c1 := Analyze(c, Some(first)).cache;
    assert c1 == c[PostsAnalysis := Str(first)];
    assert c1[CompanyInfo] == c[CompanyInfo] && c1[CompanyPosts] == c[CompanyPosts];
    var c2 := Analyze(c1, Some(second)).cache;
    assert c2 == c1[PostsAnalysis := Str(second)];
    assert es[1..] == [AnalyzePosts(Some(second))];
    assert Run(c, es) == Run(c1, es[1..]);
    assert Run(c1, es[1..]) == Run(c2, []);
  }

  /** A successful fetch into a fresh session stores exactly the profile and the posts. */
  lemma FirstFetch(info: Json, posts: Json)
    requires Truthy(info) && Truthy(posts)
    ensures Fetch(map[], Some(info), Some(posts)).cache == map[CompanyInfo := info, CompanyPosts := posts]
    ensures Progress(Fetch(map[], Some(info), Some(posts)).cache) == 1
  {
  }

  /** A refetch does not invalidate downstream results: a stored analysis and example survive it. */
  lemma RefetchKeepsDownstream(c: Cache, info: Option<Json>, posts: Option<Json>)
    ensures Slot(Fetch(c, info, posts).cache, PostsAnalysis) == Slot(c, PostsAnalysis)
    ensures Slot(Fetch(c, info, posts).cache, ExamplePost) == Slot(c, ExamplePost)
  {
  }

  /** In a reachable cache, a stored analysis is exactly what makes the example stage call the model, with that analysis as a non-empty text. */
  lemma GenerateUsesStoredAnalysis(c: Cache, answer: Option<string>)
    requires Valid(c) && IsStored(c, CompanyInfo)
    ensures GenerateExample(c, answer).request.Some? <==> PostsAnalysis in c
    ensures PostsAnalysis in c ==>
      && GenerateExample(c, answer).request.value.context == c[PostsAnalysis]
      && c[PostsAnalysis].Str? && c[PostsAnalysis].s != ""
  {
  }

  /**
   * For a posts document of the provider's shape (a dict whose 'response' is
   * a list of dicts with string texts), the analysis is requested on the
   * texts of the posts in stored order, joined by blank lines; when no text
   * holds a blank line and none but the last ends with a newline, splitting
   * that input at the blank lines gives the texts back.
   */
  lemma AnalysisRequestsStoredTexts(c: Cache, answer: Option<string>, items: seq<Json>)
    requires IsStored(c, CompanyInfo) && CompanyPosts in c && c[CompanyPosts].Obj?
    requires "response" in c[CompanyPosts].fields && c[CompanyPosts].fields["response"] == Arr(items)
    requires forall i :: 0 <= i < |items| ==> PostsText.WellFormedPost(items[i])
    ensures var texts := PostsText.TextsOf(items);
      && Analyze(c, answer).request == Some(LlmRequest(Str(PostsText.Join(texts)), AnalysisPrompt))
      && (items != [] && PostsText.Separable(texts) ==>
            PostsText.Split(PostsText.Join(texts)) == PostsText.Texts(texts))
  {
    var texts := PostsText.TextsOf(items);
    var posts := c[CompanyPosts];
    assert Contains(posts, "response") == Ok(true);
    assert PostsText.AnalysisInput(posts) == Ok(PostsText.Join(texts));
    assert IsStored(c, CompanyPosts);
    if items != [] && PostsText.Separable(texts) {
      PostsText.SplitJoin(texts);
    }
  }

}
