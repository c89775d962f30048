# Stage cache of the company-posts analysis view

This project models the core of `main_app`, the Streamlit view of a tool that
fetches a company's LinkedIn profile and posts from a data provider and runs
language-model prompts over them. Each session keeps a store with four fixed
keys: `company_info`, `company_posts`, `posts_analysis` and `example_post`.
Three stages write that store:

- **Fetch** runs when a company URL is entered. It stores the profile and the posts only if both provider answers are truthy.
- **Analyze** runs on the "Analyze Posts" button. It needs stored posts that hold a `response` key. It sends the posts' `postText` values, joined by blank lines, to the language model and stores a non-empty answer.
- **Generate Example** runs on the "Generate Example Post" button. It is offered only while an analysis is stored. It sends that analysis to the model and stores a non-empty answer.

Analyze and Generate Example are offered only while company info is stored.

The files:

- `wrappers.dfy` holds `Option` and `Result`.
- `json.dfy` holds decoded JSON values with Python truthiness. It also holds the Python operations the view applies to them: `key in x` and `x[key]`, with the `TypeError` and `KeyError` they raise.
- `posts_text.dfy` holds the text an analysis runs on: each post's `postText`, or the empty string when it has none, from the list under `response`, joined by a blank line. It includes the exceptions Python raises on documents of another shape. Its partner is `Split`, a model of Python's split at each blank line; the join can be undone when there is at least one post, no post text holds a blank line and none but the last ends with a newline.
- `pipeline.dfy` holds the three stages as functions from the cache before an event to the cache after it. Each also returns the language-model request it issued and the notice it shows.
- `lifecycle.dfy` holds sessions as sequences of events, a reachability invariant, and isolation, monotonicity and last-write-wins lemmas.
- `session.dfy` holds the session store as a class. Its `cache` field is a `map` that the three handler methods update in place through `Put`, the model of `store_data`. Each handler is proved to produce exactly what the matching stage function says.

A few helpers carry no contract of their own and have no row below:

- `PostsText.Join` is Python's join at a blank line; the lemmas `JoinEnds`, `JoinLength`, `JoinMissingAsEmpty`, `SplitJoin` and the worked examples state what it gives. `NoSeparator`, `EndsWithNewline` and `Separable` state when the join can be split back.
- `Json.Truthy` is Python's `if x:`, used by every guard in the view.
- `Json.HasSubstring` is the scan behind `in` on strings; `Json.HasSubstringIff` characterises it.
- `Pipeline.Slot` is what `get_stored_data` answers. `Pipeline.IsStored` is that answer tested for truthiness, the guard before each stage.
- `Pipeline.Fetched` and `Pipeline.Produced` are the truthiness tests on provider and language-model answers.

Network answers are parameters of the stages. `None` is a failed call; `Some(v)` is the value the call returned. A request value records whether the model was called and on what text. `None` means no call was made.

## Model

| member | source | states |
|---|---|---|
| Json.Contains | streamlit_app.py:48 | `'response' in x` is a key test on a dict, an element test on a list and a substring test on a string, and raises TypeError on None, booleans and numbers |
| Json.HasSubstringIff | streamlit_app.py:48 | the left-to-right scan behind `in` on strings finds the key exactly when it occurs at some position |
| Json.Subscript | streamlit_app.py:50 | `x['response']` answers only for a dict holding the key; KeyError for another dict, TypeError for anything else |
| PostsText.ResponsePosts | streamlit_app.py:50 | iterating the `response` value gives a list's elements; an empty dict or string gives no posts; a non-empty dict or string yields strings, which have no `.get` (AttributeError); None, booleans and numbers are not iterable (TypeError) |
| PostsText.PostTextField | streamlit_app.py:50 | `post.get('postText', '')` answers for dicts only: the field when present, missing otherwise; AttributeError for anything else |
| PostsText.PostTextFields | streamlit_app.py:50 | the comprehension succeeds exactly when every post is a dict, and then gives each post's field in stored order |
| PostsText.AsTexts | streamlit_app.py:50 | `join` accepts the fields exactly when every present one is a string, and keeps them present/missing and in order |
| PostsText.PostTexts | streamlit_app.py:50 | for a list of posts, texts are produced exactly when every post is well formed, one per post in stored order; otherwise AttributeError if some post is not a dict, else TypeError |
| PostsText.PostTextsOfWellFormed | streamlit_app.py:50 | for any `response` value that is a list of well-formed posts, the comprehension gives each post's text in stored order |
| PostsText.AnalysisInput | streamlit_app.py:50 | by document shape: a non-dict raises TypeError; a dict without `response` raises KeyError; a list of posts gives the join of their texts in stored order exactly when every post is well formed, and otherwise raises AttributeError if some post is not a dict, else TypeError; an empty dict or string under `response` gives ""; any other value raises |
| PostsText.JoinEnds | streamlit_app.py:50 | joining no texts gives ""; otherwise the result starts with the first post's text and ends with the last one's |
| PostsText.JoinLength | streamlit_app.py:50 | the joined text is as long as all texts together plus one two-character separator between each two neighbours |
| PostsText.JoinKeepsSeparatorsOfMissingText | streamlit_app.py:50 | texts "A", missing, "C" join to "A\n\n\n\nC": the separators around a missing text are kept |
| PostsText.JoinMissingAsEmpty | streamlit_app.py:50 | for any list of texts, a missing text at any position joins exactly like an empty one there |
| PostsText.JoinOfNoPosts | streamlit_app.py:50 | a worked example of why the round trip needs a post: no posts and one post without text both give "", which splits into one empty text |
| PostsText.JoinLosesBoundaryOfBlankLine | streamlit_app.py:50 | a worked example of what the join cannot keep apart: one post "a\n\nb" gives the same text as two posts "a" and "b" |
| PostsText.SplitWithoutSeparator | streamlit_app.py:50 | a text that holds no blank line splits into the text alone |
| PostsText.SplitAfterText | streamlit_app.py:50 | splitting stops at the separator right after a text that holds no blank line and does not end with a newline |
| PostsText.SplitJoin | streamlit_app.py:50 | round trip: if there is at least one post, no text holds a blank line and none but the last ends with a newline, splitting the joined input at blank lines gives back every text in order, a missing one as "" |
| PostsText.SplitJoinMultiLine | streamlit_app.py:50 | a worked example of the round trip on multi-line posts: "a\nb" then "\nc" split back into those two texts |
| Pipeline.Fetch | streamlit_app.py:19-27 | both answers truthy ⇔ success; success stores exactly profile and posts and keeps every other key; otherwise FetchFailed and the cache is unchanged; never calls the model |
| Pipeline.Analyze | streamlit_app.py:46-68 | no company info: warning, nothing else; the model is called ⇔ info and posts are stored, posts hold `response` and yield an input, and then on that input; no posts or no `response`: error, no call, no change; exceptions raised only on malformed documents, TypeError when `in` fails and otherwise the exception the input computation raises; only a non-empty answer is stored, under `posts_analysis` alone |
| Pipeline.GenerateExample | streamlit_app.py:70-94 | the model is called ⇔ info and analysis are stored, and then on the stored analysis; otherwise no call and no change; only a non-empty answer is stored, under `example_post` alone |
| Lifecycle.StepIsolation | streamlit_app.py:22-90 | every stage writes only its own keys, changes the cache only when it reports success and removes no key |
| Lifecycle.StepPreservesValid | streamlit_app.py:22-90 | every stage keeps the invariant: profile and posts stored together or not at all, all stored values truthy, analysis and example are texts, analysis only after a fetch, example only after an analysis |
| Lifecycle.EmptyIsValid | streamlit_app.py:29-30 | an empty session satisfies the invariant and is in the empty state |
| Lifecycle.RunPreservesValid | streamlit_app.py:22-90 | every cache a session reaches from a valid one satisfies the invariant |
| Lifecycle.RunLeavesOtherKeys | streamlit_app.py:22-90 | a key that no event of a session may write keeps its value, or stays absent, throughout |
| Lifecycle.RunNeverRegresses | streamlit_app.py:22-90 | no sequence of events removes a key or moves the pipeline back from fetched, analyzed or example-generated |
| Lifecycle.FailuresChangeNothing | streamlit_app.py:22-94 | a session whose events all fail leaves the cache exactly as it was |
| Lifecycle.AnalyzeTwiceKeepsSecond | streamlit_app.py:62-63 | analyzing twice with unchanged stored inputs keeps the second answer and changes nothing else |
| Lifecycle.FirstFetch | streamlit_app.py:22-24 | a successful first fetch leaves exactly `company_info` and `company_posts` stored |
| Lifecycle.RefetchKeepsDownstream | streamlit_app.py:22-24 | a refetch, successful or not, keeps a stored analysis and example post |
| Lifecycle.GenerateUsesStoredAnalysis | streamlit_app.py:70-87 | in a reachable cache with company info, the example stage calls the model ⇔ an analysis is stored, and on that analysis, a non-empty text |
| Lifecycle.AnalysisRequestsStoredTexts | streamlit_app.py:47-60 | with company info stored, for a posts document shaped like the provider's, the model is called on the posts' texts in stored order joined by blank lines; when there is at least one post, no text holds a blank line and none but the last ends with a newline, that input splits back into the texts |
| StreamlitApp.Session.constructor | streamlit_app.py:29-30 | a fresh session holds no key and satisfies the invariant, so `company_info` reads as absent |
| StreamlitApp.Session.Get | streamlit_app.py:29 | `get_stored_data` answers `Pipeline.Slot` of the cache: the stored value exactly for keys that were written |
| StreamlitApp.Session.Put | streamlit_app.py:23 | `store_data` overwrites its key and keeps every other key |
| StreamlitApp.Session.FetchCompanyData | streamlit_app.py:19-27 | the in-place fetch leaves the cache and notice `Pipeline.Fetch` gives, and keeps the invariant |
| StreamlitApp.Session.AnalyzePosts | streamlit_app.py:46-68 | the in-place analysis leaves the cache, request and notice `Pipeline.Analyze` gives: only `posts_analysis` changes, and only on success |
| StreamlitApp.Session.GenerateExamplePost | streamlit_app.py:84-94 | the in-place generation leaves the cache, request and notice `Pipeline.GenerateExample` gives: only `example_post` changes, and only on success |

## Left out

- The automatic re-fetch on every rerun is not modelled. The view fetches again on each interaction while the URL field is non-empty, and does nothing at all while it is empty (streamlit_app.py:17). Each fetch and each button press is modelled as one explicit event instead.
- Streamlit rendering is not modelled: text input, spinners, success and error messages, subheaders, and the button mechanics. Notices stand for the messages. A button press is an event or a method call.
- `display_company_info` and `display_competitors` (streamlit_app.py:31-32) are presentation code whose bodies are not part of this model.
- `load_api_keys` and the early return when no keys are loaded (streamlit_app.py:11-13) are not modelled. The keys are configuration whose loader is not part of this model.
- `login_page` and `display` (streamlit_app.py:98-101) are not modelled; their bodies are not part of this model. So the session is not cleared at logout. `Session.constructor` stands for a fresh session.
- `get_company_info`, `get_company_posts` and `analyze_text` are network clients whose bodies are not part of this model. Their answers are parameters. The config keys passed to them are dropped.
- Fetch always calls both provider endpoints (streamlit_app.py:20-21). The model records language-model requests only, not provider requests.
- The wording of the two prompts (streamlit_app.py:51-58, 86) is opaque. Also left out: how `analyze_text` combines prompt and context, timeouts, and rate limiting.
- Fetch failures of every kind, rate limiting included, look the same: the code only tests the two answers for truthiness (streamlit_app.py:22).
- Posts whose text is empty or only whitespace get no special result: the joined text goes to the model whatever it holds (streamlit_app.py:50-60).
- JSON numbers are integers; nobody reads a number. Dict key order is not modelled: iterating a non-empty dict only matters in that its keys are strings, which have no `.get`.
- `Raised` stands for an uncaught exception. It ends the view run without writing anything. How Streamlit displays it is not modelled.
