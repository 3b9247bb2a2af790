/** Shared vocabulary: optional values, results, and the search for the last
    occurrence of a character, which both the type-name printer and the path
    helpers use. */
module Common {

  /** A value that may be absent; `None` stands for the source's `null`. */
  datatype Option<T> = None | Some(value: T)

  /** The outcome of an operation that may throw. */
  datatype Result<T, E> = Ok(value: T) | Err(error: E)

  /** Index of the last character of `s` that belongs to `cs`, or -1 when no
      character of `s` does (the convention of .NET's `LastIndexOf` and
      `LastIndexOfAny`). */
  function LastIndexOfAny(s: string, cs: set<char>): (r: int)
    ensures -1 <= r < |s|
    ensures r >= 0 ==> s[r] in cs
    ensures forall j :: r < j < |s| ==> s[j] !in cs
    decreases |s|
  {
    if |s| == 0 then -1
    else if s[|s| - 1] in cs then |s| - 1
    else LastIndexOfAny(s[..|s| - 1], cs)
  }

  /** Appending text that holds a character of `cs` moves the last
      occurrence into that text. */
  lemma LastIndexOfAnyAppend(a: string, b: string, cs: set<char>)
    requires LastIndexOfAny(b, cs) >= 0
    ensures LastIndexOfAny(a + b, cs) == |a| + LastIndexOfAny(b, cs)
  {
    var k := LastIndexOfAny(b, cs);
    var r := LastIndexOfAny(a + b, cs);
    assert (a + b)[|a| + k] == b[k];
    assert forall j :: |a| <= j < |a + b| ==> (a + b)[j] == b[j - |a|];
  }

  /** A first character in `cs` followed by none is the last occurrence. */
  lemma LastIndexOfAnyFirst(s: string, cs: set<char>)
    requires |s| > 0 && s[0] in cs && forall j :: 0 < j < |s| ==> s[j] !in cs
    ensures LastIndexOfAny(s, cs) == 0
  {
  }

  /** Concatenation regroups freely. */
  lemma AppendAssoc<T>(a: seq<T>, b: seq<T>, c: seq<T>)
    ensures (a + b) + c == a + (b + c)
  {
  }
}
