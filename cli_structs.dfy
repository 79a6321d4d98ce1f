/** `non_empty_string` of src/cli/structs.rs, the validator of required command-line values. */
module CliStructs {
  import opened Wrappers
  import opened Chars

  predicate AllWhitespace(s: string) {
    forall i :: 0 <= i < |s| ==> IsWhitespace(s[i])
  }

  /** `str::trim_start`: drop the leading whitespace. */
  function TrimStart(s: string): (r: string)
    ensures |r| <= |s| && r == s[|s| - |r|..]
    ensures AllWhitespace(s[..|s| - |r|])
    ensures r != [] ==> !IsWhitespace(r[0])
    decreases |s|
  {
    if s != [] && IsWhitespace(s[0]) then
      var r := TrimStart(s[1..]);
      assert s[1..][..|s| - 1 - |r|] == s[..|s| - |r|][1..];
      r
    else
      s
  }

  /** `str::trim_end`: drop the trailing whitespace. */
  function TrimEnd(s: string): (r: string)
    ensures |r| <= |s| && r == s[..|r|]
    ensures AllWhitespace(s[|r|..])
    ensures r != [] ==> !IsWhitespace(r[|r| - 1])
    decreases |s|
  {
    if s != [] && IsWhitespace(s[|s| - 1]) then
      var r := TrimEnd(s[..|s| - 1]);
      assert s[..|s| - 1][|r|..] == s[|r|..][..|s| - 1 - |r|];
      r
    else
      s
  }

  /** `str::trim`. */
  function Trim(s: string): string {
    TrimEnd(TrimStart(s))
  }

  /** Trimming leaves nothing exactly when every character is whitespace. */
  lemma TrimEmptyIff(s: string)
    ensures Trim(s) == [] <==> AllWhitespace(s)
  {
    var t := TrimStart(s);
    if t != [] {
      // the first character kept by trim_start is not whitespace, so trim_end keeps it
      assert s[|s| - |t|] == t[0];
      assert t[0..] == t;
      assert TrimEnd(t) != [];
    } else {
      assert s[..|s|] == s;
    }
  }

  const EmptyParamMessage: string := "param cannot be empty"

  /** `non_empty_string`: reject blank input, otherwise hand it back untrimmed. */
  function NonEmptyString(s: string): (r: Result<string, string>)
    ensures r.Err? <==> AllWhitespace(s)
    ensures r.Ok? ==> r.value == s
    ensures r.Err? ==> r.error == EmptyParamMessage
  {
    TrimEmptyIff(s);
    if Trim(s) == [] then Err(EmptyParamMessage) else Ok(s)
  }
}
