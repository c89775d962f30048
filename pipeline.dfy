/**
 * The stage cache of one session and the three stages that write it: fetch
 * the company profile and posts, analyze the posts, generate an example
 * post. Each stage is a function from the cache before a button press (or,
 * for fetch, before a URL is submitted) to the cache after it, together with
 * the language-model request the stage issued and the notice it shows.
 * Provider and language-model answers are parameters: `None` is a failed
 * call, `Some(v)` the value the call returned.
 */
module Pipeline {
  import opened Wrappers
  import opened Json
  import PostsText

  /** The four fixed session keys: 'company_info', 'company_posts', 'posts_analysis' and 'example_post'. */
  datatype StageKey = CompanyInfo | CompanyPosts | PostsAnalysis | ExamplePost

  /** The session store: what `store_data` wrote under each key. */
  type Cache = map<StageKey, Json>

  /** The two fixed instruction prompts; their wording is not part of the model. */
  datatype Prompt = AnalysisPrompt | ExamplePrompt

  /** One call of the language model: the text analysed and the instruction sent with it. */
  datatype LlmRequest = LlmRequest(context: Json, prompt: Prompt)

  /** What a stage shows the user once it has run. */
  datatype Notice =
    | Stored            // the success message: the stage wrote its key(s)
    | FetchFailed       // the fetch-failure message
    | NoCompanyData     // the warning that no company data is stored; no stage button is offered
    | NoStoredPosts     // the error that no usable posts are stored
    | AnalysisFailed    // the analysis-failure message
    | NoStoredAnalysis  // no analysis is stored, so the example button is not offered
    | ExampleFailed     // the example-failure message
    | Raised(error: PyError)  // the view stops with an uncaught exception

  /** The result of one stage. */
  datatype Outcome = Outcome(cache: Cache, request: Option<LlmRequest>, notice: Notice)

  /** What `get_stored_data(k)` answers: the stored value, `None` when the key was never written. */
  function Slot(c: Cache, k: StageKey): Option<Json> {
    if k in c then Some(c[k]) else None
  }

  /** `get_stored_data(k)` is truthy. */
  predicate IsStored(c: Cache, k: StageKey) {
    k in c && Truthy(c[k])
  }

  /** A provider call that returned a truthy document. */
  predicate Fetched(answer: Option<Json>) {
    answer.Some? && Truthy(answer.value)
  }

  /** A language-model call that returned a non-empty text. */
  predicate Produced(answer: Option<string>) {
    answer.Some? && answer.value != ""
  }

  /** `c'` agrees with `c` on every key outside `ks`. */
  predicate SameExcept(c: Cache, c': Cache, ks: set<StageKey>) {
    forall k :: k !in ks ==> Slot(c', k) == Slot(c, k)
  }

  /**
   * Fetch (the block run when a company URL is entered): both provider
   * answers must be truthy; then both are stored, otherwise nothing is.
   */
  function Fetch(c: Cache, info: Option<Json>, posts: Option<Json>): (r: Outcome)
    ensures r.request == None
    ensures r.notice == Stored <==> Fetched(info) && Fetched(posts)
    ensures r.notice != Stored ==> r.notice == FetchFailed && r.cache == c
    ensures r.notice == Stored ==>
      && Slot(r.cache, CompanyInfo) == info
      && Slot(r.cache, CompanyPosts) == posts
      && SameExcept(c, r.cache, {CompanyInfo, CompanyPosts})
  {
    if Fetched(info) && Fetched(posts) then
      Outcome(c[CompanyInfo := info.value][CompanyPosts := posts.value], None, Stored)
    else
      Outcome(c, None, FetchFailed)
  }

  /**
   * Analyze (the "Analyze Posts" button): offered only while company info is
   * stored; needs stored posts holding a 'response' key; sends the joined
   * post texts to the language model and stores a non-empty answer.
   */
  function Analyze(c: Cache, llm: Option<string>): (r: Outcome)
    ensures !IsStored(c, CompanyInfo) ==> r == Outcome(c, None, NoCompanyData)
    ensures r.request.Some? <==>
      && IsStored(c, CompanyInfo)
      && IsStored(c, CompanyPosts)
      && Contains(c[CompanyPosts], "response") == Ok(true)
      && PostsText.AnalysisInput(c[CompanyPosts]).Ok?
    ensures r.request.Some? ==>
      r.request.value == LlmRequest(Str(PostsText.AnalysisInput(c[CompanyPosts]).value), AnalysisPrompt)
    ensures r.notice == Stored <==> r.request.Some? && Produced(llm)
    ensures r.notice == Stored ==>
      Slot(r.cache, PostsAnalysis) == Some(Str(llm.value)) && SameExcept(c, r.cache, {PostsAnalysis})
    ensures r.notice != Stored ==> r.cache == c
    ensures r.request.Some? && !Produced(llm) ==> r.notice == AnalysisFailed
    ensures IsStored(c, CompanyInfo) && (!IsStored(c, CompanyPosts) || Contains(c[CompanyPosts], "response") == Ok(false)) ==>
      r == Outcome(c, None, NoStoredPosts)
    ensures r.notice.Raised? <==>
      && IsStored(c, CompanyInfo)
      && IsStored(c, CompanyPosts)
      && (Contains(c[CompanyPosts], "response").Err? ||
          (Contains(c[CompanyPosts], "response") == Ok(true) && PostsText.AnalysisInput(c[CompanyPosts]).Err?))
    ensures r.notice.Raised? ==>
      r.notice.error == if Contains(c[CompanyPosts], "response").Err? then TypeError
                        else PostsText.AnalysisInput(c[CompanyPosts]).error
  {
    if !IsStored(c, CompanyInfo) then Outcome(c, None, NoCompanyData)
    else if !IsStored(c, CompanyPosts) then Outcome(c, None, NoStoredPosts)
    else
      match Contains(c[CompanyPosts], "response")
      case Err(e) => Outcome(c, None, Raised(e))
      case Ok(found) =>
        if !found then Outcome(c, None, NoStoredPosts)
        else
          match PostsText.AnalysisInput(c[CompanyPosts])
          case Err(e) => Outcome(c, None, Raised(e))
          case Ok(text) =>
            var request := Some(LlmRequest(Str(text), AnalysisPrompt));
            if Produced(llm) then Outcome(c[PostsAnalysis := Str(llm.value)], request, Stored)
            else Outcome(c, request, AnalysisFailed)
  }

  /**
   * Generate Example (the "Generate Example Post" button): offered only
   * while company info and an analysis are stored; sends the stored analysis
   * to the language model and stores a non-empty answer.
   */
  function GenerateExample(c: Cache, llm: Option<string>): (r: Outcome)
    ensures !IsStored(c, CompanyInfo) ==> r == Outcome(c, None, NoCompanyData)
    ensures IsStored(c, CompanyInfo) && !IsStored(c, PostsAnalysis) ==> r == Outcome(c, None, NoStoredAnalysis)
    ensures r.request.Some? <==> IsStored(c, CompanyInfo) && IsStored(c, PostsAnalysis)
    ensures r.request.Some? ==> r.request.value == LlmRequest(c[PostsAnalysis], ExamplePrompt)
    ensures r.notice == Stored <==> r.request.Some? && Produced(llm)
    ensures r.notice == Stored ==>
      Slot(r.cache, ExamplePost) == Some(Str(llm.value)) && SameExcept(c, r.cache, {ExamplePost})
    ensures r.notice != Stored ==> r.cache == c
    ensures r.request.Some? && !Produced(llm) ==> r.notice == ExampleFailed
  {
    if !IsStored(c, CompanyInfo) then Outcome(c, None, NoCompanyData)
    else if !IsStored(c, PostsAnalysis) then Outcome(c, None, NoStoredAnalysis)
    else
      var request := Some(LlmRequest(c[PostsAnalysis], ExamplePrompt));
      if Produced(llm) then Outcome(c[ExamplePost := Str(llm.value)], request, Stored)
      else Outcome(c, request, ExampleFailed)
  }
}
