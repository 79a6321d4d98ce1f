/**
 * `StringUtils::safe_substring` of src/utils/string.rs over the UTF-8 bytes
 * of a `str`: the longest prefix holding at most `max_chars` characters. The
 * `String` implementation only delegates to the `str` one.
 */
module StringUtils {
  import opened Utf8

  /** The reference: the longest prefix of `s` with at most `n` characters. */
  function FirstChars(s: seq<byte>, n: nat): (r: seq<byte>)
    ensures |r| <= |s| && r == s[..|r|]
    ensures CharCount(r) <= n
    ensures |r| < |s| ==> CharCount(s[..|r| + 1]) > n
    decreases |s|
  {
    if CharCount(s) <= n then s
    else
      var r := FirstChars(s[..|s| - 1], n);
      assert s[..|s| - 1][..|r|] == s[..|r|];
      assert |r| < |s| - 1 ==> s[..|s| - 1][..|r| + 1] == s[..|r| + 1];
      assert s[..|s|] == s;
      r
  }

  lemma CountStep(s: seq<byte>, pos: nat)
    requires pos < |s|
    ensures CharCount(s[..pos + 1]) == CharCount(s[..pos]) + (if IsLead(s[pos]) then 1 else 0)
  {
    assert s[..pos + 1][..pos] == s[..pos];
  }

  /** The cut sits right before the character that would be one too many. */
  lemma FirstCharsAtLead(s: seq<byte>, pos: nat, n: nat)
    requires pos < |s| && IsLead(s[pos]) && CharCount(s[..pos]) == n
    ensures FirstChars(s, n) == s[..pos]
  {
    var k := |FirstChars(s, n)|;
    CountStep(s, pos);
    CharCountPrefix(s, pos + 1, k);
    CharCountPrefix(s, k + 1, pos);
  }

  /**
   * `safe_substring`: walk the characters (each starts at a lead byte) and stop
   * at the start of character number `max_chars`; without one, keep all of `s`.
   */
  method SafeSubstring(s: seq<byte>, maxChars: nat) returns (r: seq<byte>)
    ensures r == FirstChars(s, maxChars)
  {
    var end := |s|;
    var i := 0;
    var pos := 0;
    while pos < |s|
      invariant pos <= |s| && end == |s|
      invariant i == CharCount(s[..pos]) && i <= maxChars
    {
      if IsLead(s[pos]) {
        if i == maxChars {
          FirstCharsAtLead(s, pos, maxChars);
          end := pos;
          break;
        }
        i := i + 1;
      }
      CountStep(s, pos);
      pos := pos + 1;
    }
    if end == |s| {
      assert s[..pos] == s;
    }
    r := s[..end];
  }

  /** The result holds exactly `min(n, CharCount(s))` characters. */
  lemma FirstCharsCount(s: seq<byte>, n: nat)
    ensures CharCount(FirstChars(s, n)) == if CharCount(s) <= n then CharCount(s) else n
  {
    var r := FirstChars(s, n);
    if CharCount(s) > n {
      CharCountPrefix(s, |r|, |r| + 1);
    }
  }

  /** A string of at most `n` characters is returned whole. */
  lemma FirstCharsWhole(s: seq<byte>, n: nat)
    requires CharCount(s) <= n
    ensures FirstChars(s, n) == s
  {
  }

  /** The cut never falls inside a character. */
  lemma FirstCharsOnBoundary(s: seq<byte>, n: nat)
    ensures IsCharBoundary(s, |FirstChars(s, n)|)
  {
    var k := |FirstChars(s, n)|;
    if k < |s| {
      CountStep(s, k);
    }
  }

  /** No characters asked for, none given, for a string that starts on a character as a `str` does. */
  lemma FirstCharsZero(s: seq<byte>)
    requires s == [] || IsLead(s[0])
    ensures FirstChars(s, 0) == []
  {
    var k := |FirstChars(s, 0)|;
    if s != [] {
      CountStep(s, 0);
      assert s[..0] == [];
    }
    CharCountPrefix(s, 1, k);
  }

  /** Asking for more characters extends the result. */
  lemma FirstCharsMonotone(s: seq<byte>, n: nat, m: nat)
    requires n <= m
    ensures |FirstChars(s, n)| <= |FirstChars(s, m)|
    ensures FirstChars(s, n) == FirstChars(s, m)[..|FirstChars(s, n)|]
  {
    var a, b := |FirstChars(s, n)|, |FirstChars(s, m)|;
    CharCountPrefix(s, b + 1, a);
  }
}
