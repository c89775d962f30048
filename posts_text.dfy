/**
 * The text an analysis is run on: each post's `postText`, or the empty
 * string when it has none, taken from the list under the `response` key of
 * the stored posts document in stored order and joined by a blank line;
 * together with the exceptions Python raises on documents of another shape.
 */
module PostsText {
  import opened Wrappers
  import opened Json

  /** The separator the post texts are joined with. */
  const SEP: string := "\n\n"

  /** The text one post contributes: a missing `postText` contributes the empty string. */
  function Text(t: Option<string>): string {
    t.GetOr("")
  }

  /** The contributed texts, one per post. */
  function Texts(ts: seq<Option<string>>): (r: seq<string>)
    ensures |r| == |ts|
    ensures forall i :: 0 <= i < |ts| ==> r[i] == Text(ts[i])
  {
    seq(|ts|, i requires 0 <= i < |ts| => Text(ts[i]))
  }

  /** Python's `join` with `SEP` over the contributed texts. */
  function Join(ts: seq<Option<string>>): string
    decreases |ts|
  {
    if |ts| == 0 then ""
    else if |ts| == 1 then Text(ts[0])
    else Text(ts[0]) + SEP + Join(ts[1..])
  }

  /**
   * The joined text of no posts is empty; otherwise it starts with the
   * first post's text and ends with the last one's.
   */
  lemma {:induction false} JoinEnds(ts: seq<Option<string>>)
    ensures ts == [] ==> Join(ts) == ""
    ensures ts != [] ==> Text(ts[0]) <= Join(ts)
    ensures ts != [] ==> var last := Text(ts[|ts| - 1]);
      |last| <= |Join(ts)| && Join(ts)[|Join(ts)| - |last|..] == last
    decreases |ts|
  {
    if |ts| > 1 {
      JoinEnds(ts[1..]);
      var rest := Join(ts[1..]);
      var last := Text(ts[|ts| - 1]);
      assert ts[1..][|ts[1..]| - 1] == ts[|ts| - 1];
      assert (Text(ts[0]) + SEP + rest)[|Join(ts)| - |last|..] == rest[|rest| - |last|..];
    }
  }

  /** Python's `s.split(SEP)`: the pieces between the separators found scanning from the left. */
  function Split(s: string): (r: seq<string>)
    ensures |r| >= 1
    decreases |s|
  {
    if |s| < 2 then [s]
    else if s[..2] == SEP then [""] + Split(s[2..])
    else
      var rest := Split(s[1..]);
      [[s[0]] + rest[0]] + rest[1..]
  }

  /** Sum of the lengths of the contributed texts. */
  function TotalLength(ts: seq<Option<string>>): nat
    decreases |ts|
  {
    if ts == [] then 0 else |Text(ts[0])| + TotalLength(ts[1..])
  }

  /** The joined text holds every contributed text and one separator between each two neighbours. */
  lemma {:induction false} JoinLength(ts: seq<Option<string>>)
    ensures |Join(ts)| == TotalLength(ts) + (if ts == [] then 0 else |SEP| * (|ts| - 1))
    decreases |ts|
  {
    if |ts| > 1 {
      JoinLength(ts[1..]);
    }
  }

  /** A missing text keeps both separators around it: texts "A", missing, "C" join to "A\n\n\n\nC". */
  lemma JoinKeepsSeparatorsOfMissingText()
    ensures Join([Some("A"), None, Some("C")]) == "A\n\n\n\nC"
  {
    var ts := [Some("A"), None, Some("C")];
    assert ts[1..] == [None, Some("C")] && ts[1..][1..] == [Some("C")];
    assert Join([Some("C")]) == "C";
    assert Join(ts[1..]) == "" + SEP + "C";
    assert Join(ts) == "A" + SEP + ("" + SEP + "C");
  }

  /** A missing text contributes exactly what an empty one does, wherever it stands. */
  lemma {:induction false} JoinMissingAsEmpty(ts: seq<Option<string>>, i: nat)
    requires i < |ts| && ts[i] == None
    ensures Join(ts) == Join(ts[i := Some("")])
    decreases |ts|
  {
    if i > 0 {
      JoinMissingAsEmpty(ts[1..], i - 1);
      assert ts[i := Some("")][1..] == ts[1..][i - 1 := Some("")];
    } else {
      assert ts[0 := Some("")][1..] == ts[1..];
    }
  }

  /**
   * A text holding a blank line loses its boundary: one post "a\n\nb" joins
   * to the same text as two posts "a" and "b".
   */
  lemma JoinLosesBoundaryOfBlankLine()
    ensures Join([Some("a\n\nb")]) == Join([Some("a"), Some("b")])
  {
    var ts := [Some("a"), Some("b")];
    assert ts[1..] == [Some("b")];
  }

  /**
   * No posts and one post without text give the same empty input, which
   * splits into one empty text: the round trip needs at least one post.
   */
  lemma JoinOfNoPosts()
    ensures Join([]) == Join([None]) == ""
    ensures Split(Join([])) == [""]
  {
  }

  /** `t` holds no separator anywhere. */
  predicate NoSeparator(t: string) {
    forall i :: 0 <= i < |t| ==> !OccursAt(t, SEP, i)
  }

  /** `t` ends with a newline, so a following separator would be found one position early. */
  predicate EndsWithNewline(t: string) {
    t != [] && t[|t| - 1] == '\n'
  }

  /** A text without a separator is split into itself alone. */
  lemma {:induction false} SplitWithoutSeparator(t: string)
    requires NoSeparator(t)
    ensures Split(t) == [t]
    decreases |t|
  {
    if |t| >= 2 {
      assert !OccursAt(t, SEP, 0);
      assert NoSeparator(t[1..]) by {
        forall i: nat ensures !OccursAt(t[1..], SEP, i) {
          if i + |SEP| <= |t[1..]| {
            assert !OccursAt(t, SEP, i + 1);
            assert t[1..][i..i + |SEP|] == t[i + 1..i + 1 + |SEP|];
          }
        }
      }
      SplitWithoutSeparator(t[1..]);
      assert [t[0]] + t[1..] == t;
    }
  }

  /**
   * Splitting stops at the first separator after a text that holds no
   * separator and does not end with a newline.
   */
  lemma {:induction false} SplitAfterText(t: string, rest: string)
    requires NoSeparator(t) && !EndsWithNewline(t)
    ensures Split(t + SEP + rest) == [t] + Split(rest)
    decreases |t|
  {
    var s := t + SEP + rest;
    if t == [] {
      assert s == SEP + rest;
      assert s[..2] == SEP;
      assert s[2..] == rest;
    } else {
      if |t| >= 2 {
        assert !OccursAt(t, SEP, 0);
        assert s[..2] == t[..2];
      } else {
        assert s[..2][1] == '\n' && s[..2][0] == t[0] != '\n';
      }
      assert s[1..] == t[1..] + SEP + rest;
      assert NoSeparator(t[1..]) by {
        forall i: nat ensures !OccursAt(t[1..], SEP, i) {
          if i + |SEP| <= |t[1..]| {
            assert !OccursAt(t, SEP, i + 1);
            assert t[1..][i..i + |SEP|] == t[i + 1..i + 1 + |SEP|];
          }
        }
      }
      assert t[1..] != [] ==> t[1..][|t[1..]| - 1] == t[|t| - 1];
      SplitAfterText(t[1..], rest);
      assert [t[0]] + t[1..] == t;
    }
  }

  /**
   * The texts can be told apart in the joined text: none holds a separator,
   * and none but the last ends with a newline.
   */
  predicate Separable(ts: seq<Option<string>>) {
    && (forall i :: 0 <= i < |ts| ==> NoSeparator(Text(ts[i])))
    && (forall i :: 0 <= i < |ts| - 1 ==> !EndsWithNewline(Text(ts[i])))
  }

  /**
   * Round trip: when the texts are separable, splitting the joined text at
   * the separators gives back every contributed text, in order (a missing
   * text comes back as the empty string).
   */
  lemma {:induction false} SplitJoin(ts: seq<Option<string>>)
    requires ts != [] && Separable(ts)
    ensures Split(Join(ts)) == Texts(ts)
    decreases |ts|
  {
    if |ts| == 1 {
      SplitWithoutSeparator(Text(ts[0]));
    } else {
      assert NoSeparator(Text(ts[0])) && !EndsWithNewline(Text(ts[0]));
      SplitAfterText(Text(ts[0]), Join(ts[1..]));
      assert Separable(ts[1..]) by {
        forall i | 0 <= i < |ts[1..]| ensures NoSeparator(Text(ts[1..][i])) {
          assert ts[1..][i] == ts[i + 1];
        }
        forall i | 0 <= i < |ts[1..]| - 1 ensures !EndsWithNewline(Text(ts[1..][i])) {
          assert ts[1..][i] == ts[i + 1];
        }
      }
      SplitJoin(ts[1..]);
      assert Texts(ts) == [Text(ts[0])] + Texts(ts[1..]);
    }
  }

  /** Multi-line posts come back whole: "a\nb" then "\nc" split back into those two texts. */
  lemma SplitJoinMultiLine()
    ensures Split(Join([Some("a\nb"), Some("\nc")])) == ["a\nb", "\nc"]
  {
    var ts := [Some("a\nb"), Some("\nc")];
    forall i: nat ensures !OccursAt("a\nb", SEP, i) && !OccursAt("\nc", SEP, i) {
      if i + 2 <= 3 {
        assert "a\nb"[i..i + 2][0] == "a\nb"[i] && "a\nb"[i..i + 2][1] == "a\nb"[i + 1];
      }
      if i + 2 <= 2 {
        assert "\nc"[i..i + 2][1] == 'c';
      }
    }
    assert Separable(ts);
    SplitJoin(ts);
    assert Texts(ts) == ["a\nb", "\nc"];
  }

  /** The value `post.get('postText', '')` answers for one post, where only a dict has `.get`. */
  function PostTextField(post: Json): (r: Result<Option<Json>, PyError>)
    ensures r.Ok? <==> post.Obj?
    ensures r.Err? ==> r.error == AttributeError
    ensures r.Ok? ==> (r.value.Some? <==> "postText" in post.fields)
    ensures r.Ok? && r.value.Some? ==> r.value.value == post.fields["postText"]
  {
    match post
    case Obj(fields) => Ok(if "postText" in fields then Some(fields["postText"]) else None)
    case _ => Err(AttributeError)
  }

  /** The list comprehension: `.get('postText', '')` of every post, failing on the first post that is not a dict. */
  function PostTextFields(posts: seq<Json>): (r: Result<seq<Option<Json>>, PyError>)
    ensures r.Ok? <==> forall i :: 0 <= i < |posts| ==> posts[i].Obj?
    ensures r.Err? ==> r.error == AttributeError
    ensures r.Ok? ==> |r.value| == |posts|
    ensures r.Ok? ==> forall i :: 0 <= i < |posts| ==> PostTextField(posts[i]) == Ok(r.value[i])
    decreases |posts|
  {
    if posts == [] then Ok([])
    else match PostTextField(posts[0])
      case Err(e) => Err(e)
      case Ok(v) =>
        match PostTextFields(posts[1..])
        case Err(e) => Err(e)
        case Ok(vs) => Ok([v] + vs)
  }

  /** The type check of `join`: every present field must be a string. */
  function AsTexts(vs: seq<Option<Json>>): (r: Option<seq<Option<string>>>)
    ensures r.Some? <==> forall i :: 0 <= i < |vs| && vs[i].Some? ==> vs[i].value.Str?
    ensures r.Some? ==> |r.value| == |vs|
    ensures r.Some? ==> forall i :: 0 <= i < |vs| ==>
      (r.value[i].Some? <==> vs[i].Some?) && (r.value[i].Some? ==> Str(r.value[i].value) == vs[i].value)
    decreases |vs|
  {
    if vs == [] then Some([])
    else if vs[0].Some? && !vs[0].value.Str? then None
    else
      match AsTexts(vs[1..])
      case None => None
      case Some(ts) => Some([if vs[0].Some? then Some(vs[0].value.s) else None] + ts)
  }

  /**
   * The posts a `for post in response` loop visits, as far as `.get` can use
   * them: a list yields its elements, a dict its keys and a string its
   * characters (both strings, which have no `.get`), anything else is not iterable.
   */
  function ResponsePosts(response: Json): (r: Result<seq<Json>, PyError>)
    ensures response.Arr? ==> r == Ok(response.items)
    ensures (response.Obj? || response.Str?) && Truthy(response) ==> r == Err(AttributeError)
    ensures (response.Obj? || response.Str?) && !Truthy(response) ==> r == Ok([])
    ensures response.Null? || response.Bool? || response.Num? ==> r == Err(TypeError)
  {
    match response
    case Arr(items) => Ok(items)
    case Obj(fields) => if fields == map[] then Ok([]) else Err(AttributeError)
    case Str(s) => if s == "" then Ok([]) else Err(AttributeError)
    case _ => Err(TypeError)
  }

  /** The texts of the posts under `response`, in stored order, or the exception raised on the way. */
  function PostTexts(response: Json): (r: Result<seq<Option<string>>, PyError>)
    ensures response.Arr? && r.Ok? ==> |r.value| == |response.items|
    ensures response.Arr? ==> (r.Ok? <==> forall i :: 0 <= i < |response.items| ==> WellFormedPost(response.items[i]))
    ensures response.Arr? && r.Ok? ==> forall i :: 0 <= i < |response.items| ==> r.value[i] == TextOf(response.items[i])
    ensures r.Err? && response.Arr? && (forall i :: 0 <= i < |response.items| ==> response.items[i].Obj?) ==> r.error == TypeError
    ensures r.Err? && response.Arr? && !(forall i :: 0 <= i < |response.items| ==> response.items[i].Obj?) ==> r.error == AttributeError
  {
    match ResponsePosts(response)
    case Err(e) => Err(e)
    case Ok(posts) =>
      match PostTextFields(posts)
      case Err(e) => Err(e)
      case Ok(vs) =>
        match AsTexts(vs)
        case None => Err(TypeError)
        case Some(ts) => Ok(ts)
  }

  /** A post the comprehension and `join` accept: a dict whose `postText`, if present, is a string. */
  predicate WellFormedPost(post: Json) {
    post.Obj? && ("postText" in post.fields ==> post.fields["postText"].Str?)
  }

  /** The text a well-formed post contributes, `None` when it has no `postText`. */
  function TextOf(post: Json): Option<string>
    requires WellFormedPost(post)
  {
    if "postText" in post.fields then Some(post.fields["postText"].s) else None
  }

  /** The texts of a list of well-formed posts, in stored order. */
  function TextsOf(items: seq<Json>): (r: seq<Option<string>>)
    requires forall i :: 0 <= i < |items| ==> WellFormedPost(items[i])
    ensures |r| == |items|
  {
    seq(|items|, i requires 0 <= i < |items| => TextOf(items[i]))
  }

  /** The comprehension over a list of well-formed posts gives each post's text, in stored order. */
  lemma PostTextsOfWellFormed(response: Json)
    ensures response.Arr? && (forall i :: 0 <= i < |response.items| ==> WellFormedPost(response.items[i])) ==>
      PostTexts(response) == Ok(TextsOf(response.items))
  {
    if response.Arr? && (forall i :: 0 <= i < |response.items| ==> WellFormedPost(response.items[i])) {
      var r := PostTexts(response);
      assert r.Ok?;
      assert r.value == TextsOf(response.items);
    }
  }

  /**
   * The whole analysis input, by the shape of the stored posts document:
   * only a dict holding `response` can be subscripted; a list of well-formed
   * posts gives their texts in stored order joined by blank lines; any other
   * list, or any other `response` value, raises, except an empty dict or
   * string, which has no posts and gives the empty text.
   */
  function AnalysisInput(posts: Json): (r: Result<string, PyError>)
    ensures !posts.Obj? ==> r == Err(TypeError)
    ensures posts.Obj? && "response" !in posts.fields ==> r == Err(KeyError)
    ensures posts.Obj? && "response" in posts.fields && posts.fields["response"].Arr? ==>
      var items := posts.fields["response"].items;
      && (r.Ok? <==> forall i :: 0 <= i < |items| ==> WellFormedPost(items[i]))
      && (r.Ok? ==> r == Ok(Join(TextsOf(items))))
      && (r.Err? ==> r.error == if forall i :: 0 <= i < |items| ==> items[i].Obj? then TypeError else AttributeError)
    ensures posts.Obj? && "response" in posts.fields && !posts.fields["response"].Arr? ==>
      var response := posts.fields["response"];
      r == if response.Obj? || response.Str? then (if Truthy(response) then Err(AttributeError) else Ok("")) else Err(TypeError)
  {
    match Subscript(posts, "response")
    case Err(e) => Err(e)
    case Ok(response) =>
      PostTextsOfWellFormed(response);
      match PostTexts(response)
      case Err(e) => Err(e)
      case Ok(ts) => Ok(Join(ts))
  }
}
