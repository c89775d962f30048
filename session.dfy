/**
 * The session store of the view function `main_app` as an object whose
 * cache the three stage handlers update in place through `Put`, the model of
 * `store_data`; `Get` is the model of `get_stored_data`. Each handler is the
 * imperative counterpart of a stage function of `Pipeline` and is proved to
 * leave the cache, the model request and the notice that function gives.
 */
module StreamlitApp {
  import opened Wrappers
  import opened Json
  import PostsText
  import opened Pipeline
  import Lifecycle

  class Session {
    /** What the session store holds under each of the four keys. */
    var cache: Cache

    /** A fresh session (created at login) holds nothing. */
    constructor ()
      ensures cache == map[]
      ensures Lifecycle.Valid(cache)
    {
      cache := map[];
    }

    /** `get_stored_data(key)`: the stored value, or `None` for a key never written. */
    function Get(key: StageKey): (r: Option<Json>)
      reads this
      ensures r == Slot(cache, key)
      ensures r.Some? <==> key in cache
    {
      Slot(cache, key)
    }

    /** `store_data(key, value)`: overwrite the key, keep every other key. */
    method Put(key: StageKey, value: Json)
      modifies this
      ensures cache == old(cache)[key := value]
    {
      cache := cache[key := value];
    }

    /** The fetch block: both provider answers must be truthy before either is stored. */
    method FetchCompanyData(info: Option<Json>, posts: Option<Json>) returns (notice: Notice)
      requires Lifecycle.Valid(cache)
      modifies this
      ensures Lifecycle.Valid(cache)
      ensures Outcome(cache, None, notice) == Fetch(old(cache), info, posts)
      ensures notice == Stored <==> Fetched(info) && Fetched(posts)
      ensures notice != Stored ==> cache == old(cache)
    {
      if Fetched(info) && Fetched(posts) {
        Put(CompanyInfo, info.value);
        Put(CompanyPosts, posts.value);
        notice := Stored;
      } else {
        notice := FetchFailed;
      }
      Lifecycle.StepPreservesValid(old(cache), Lifecycle.FetchData(info, posts));
    }

    /**
     * The "Analyze Posts" button. `answer` is what the language model returns
     * if it is called; `request` is the call made, `None` when none is.
     */
    method AnalyzePosts(answer: Option<string>) returns (request: Option<LlmRequest>, notice: Notice)
      requires Lifecycle.Valid(cache)
      modifies this
      ensures Lifecycle.Valid(cache)
      ensures Outcome(cache, request, notice) == Analyze(old(cache), answer)
      ensures notice != Stored ==> cache == old(cache)
      ensures notice == Stored ==> cache == old(cache)[PostsAnalysis := Str(answer.value)]
    {
      var storedInfo := Get(CompanyInfo);
      if storedInfo.None? || !Truthy(storedInfo.value) {
        return None, NoCompanyData;
      }
      var storedPosts := Get(CompanyPosts);
      if storedPosts.None? || !Truthy(storedPosts.value) {
        return None, NoStoredPosts;
      }
      var found := Contains(storedPosts.value, "response");
      if found.Err? {
        return None, Raised(found.error);
      }
      if !found.value {
        return None, NoStoredPosts;
      }
      var postsText := PostsText.AnalysisInput(storedPosts.value);
      if postsText.Err? {
        return None, Raised(postsText.error);
      }
      request := Some(LlmRequest(Str(postsText.value), AnalysisPrompt));
      if Produced(answer) {
        Put(PostsAnalysis, Str(answer.value));
        notice := Stored;
      } else {
        notice := AnalysisFailed;
      }
      Lifecycle.StepPreservesValid(old(cache), Lifecycle.AnalyzePosts(answer));
    }

    /**
     * The "Generate Example Post" button, offered only while an analysis is
     * stored; the stored analysis is the text sent to the language model.
     */
    method GenerateExamplePost(answer: Option<string>) returns (request: Option<LlmRequest>, notice: Notice)
      requires Lifecycle.Valid(cache)
      modifies this
      ensures Lifecycle.Valid(cache)
      ensures Outcome(cache, request, notice) == GenerateExample(old(cache), answer)
      ensures notice != Stored ==> cache == old(cache)
      ensures notice == Stored ==> cache == old(cache)[ExamplePost := Str(answer.value)]
    {
      var storedInfo := Get(CompanyInfo);
      if storedInfo.None? || !Truthy(storedInfo.value) {
        return None, NoCompanyData;
      }
      var storedAnalysis := Get(PostsAnalysis);
      if storedAnalysis.None? || !Truthy(storedAnalysis.value) {
        return None, NoStoredAnalysis;
      }
      request := Some(LlmRequest(storedAnalysis.value, ExamplePrompt));
      if Produced(answer) {
        Put(ExamplePost, Str(answer.value));
        notice := Stored;
      } else {
        notice := ExampleFailed;
      }
      Lifecycle.StepPreservesValid(old(cache), Lifecycle.GenerateExamplePost(answer));
    }
  }
}
