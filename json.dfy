/**
 * Decoded JSON documents as the Python program sees them, with the few Python
 * operations the stage logic applies to them: truthiness (`if x:`), the
 * membership test `key in x`, and the exceptions those operations raise.
 */
module Json {
  import opened Wrappers

  /** A decoded JSON value. Numbers are kept integral: no stage reads a number. */
  datatype Json =
    | Null
    | Bool(b: bool)
    | Num(n: int)
    | Str(s: string)
    | Arr(items: seq<Json>)
    | Obj(fields: map<string, Json>)

  /** The Python exceptions the stage logic can raise on an unexpected document shape. */
  datatype PyError = TypeError | AttributeError | KeyError

  /** Python truthiness: `None`, `False`, `0`, `""`, `[]` and `{}` are false, everything else is true. */
  predicate Truthy(v: Json) {
    match v
    case Null => false
    case Bool(b) => b
    case Num(n) => n != 0
    case Str(s) => s != ""
    case Arr(items) => items != []
    case Obj(fields) => fields != map[]
  }

  /** `pat` occurs in `s` starting at position `i`. */
  predicate OccursAt(s: string, pat: string, i: nat) {
    i + |pat| <= |s| && s[i..i + |pat|] == pat
  }

  /** Python's `pat in s` on two strings, scanning `s` from the left. */
  predicate HasSubstring(s: string, pat: string)
    decreases |s|
  {
    |pat| <= |s| && (s[..|pat|] == pat || HasSubstring(s[1..], pat))
  }

  /** The scan finds `pat` exactly when `pat` occurs somewhere in `s`. */
  lemma {:induction false} HasSubstringIff(s: string, pat: string)
    ensures HasSubstring(s, pat) <==> exists i: nat :: OccursAt(s, pat, i)
    decreases |s|
  {
    if |pat| <= |s| {
      if s[..|pat|] == pat {
        assert OccursAt(s, pat, 0);
      } else {
        HasSubstringIff(s[1..], pat);
        if exists i: nat :: OccursAt(s, pat, i) {
          var i: nat :| OccursAt(s, pat, i);
          assert i != 0;
          assert s[1..][i - 1..i - 1 + |pat|] == s[i..i + |pat|];
          assert OccursAt(s[1..], pat, i - 1);
        }
        if exists j: nat :: OccursAt(s[1..], pat, j) {
          var j: nat :| OccursAt(s[1..], pat, j);
          assert s[1..][j..j + |pat|] == s[j + 1..j + 1 + |pat|];
          assert OccursAt(s, pat, j + 1);
        }
      }
    }
  }

  /**
   * Python's `key in container`: a key test on a dict, an element test on a
   * list, a substring test on a string, and a TypeError on `None`, booleans
   * and numbers, which are not containers.
   */
  function Contains(container: Json, key: string): (r: Result<bool, PyError>)
    ensures r.Err? <==> container.Null? || container.Bool? || container.Num?
    ensures r.Err? ==> r.error == TypeError
    ensures container.Obj? ==> r == Ok(key in container.fields)
    ensures container.Arr? ==> r == Ok(Str(key) in container.items)
    ensures container.Str? ==> r == Ok(exists i: nat :: OccursAt(container.s, key, i))
  {
    match container
    case Obj(fields) => Ok(key in fields)
    case Arr(items) => Ok(Str(key) in items)
    case Str(s) => HasSubstringIff(s, key); Ok(HasSubstring(s, key))
    case _ => Err(TypeError)
  }

  /** Python's `container[key]` with a string key: only a dict holding that key answers. */
  function Subscript(container: Json, key: string): (r: Result<Json, PyError>)
    ensures r.Ok? <==> container.Obj? && key in container.fields
    ensures r.Ok? ==> r.value == container.fields[key]
    ensures r.Err? && container.Obj? ==> r.error == KeyError
    ensures r.Err? && !container.Obj? ==> r.error == TypeError
  {
    match container
    case Obj(fields) => if key in fields then Ok(fields[key]) else Err(KeyError)
    case _ => Err(TypeError)
  }
}
