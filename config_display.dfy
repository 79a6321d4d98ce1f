/**
 * The two string helpers of src/config/display.rs that shape table cells.
 * Both measure and slice the UTF-8 bytes of a `&str`, and a Rust slice panics
 * unless it falls on a character boundary, so both return a `Result` whose
 * error is the panic.
 */
module Display {
  import opened Wrappers
  import opened Utf8

  datatype Panic =
    | SubtractOverflow                   // `max_len - 3` below zero on a `usize`
    | SliceNotOnCharBoundary(index: nat) // `&s[..k]` or `&s[k..]` inside a character

  const Ellipsis: seq<byte> := [0x2E, 0x2E, 0x2E]  // "..."
  const Star: byte := 0x2A                         // '*'

  /** `truncate`: at most `max_len` bytes, cutting long text to `max_len - 3` bytes and "...". */
  function Truncate(s: seq<byte>, maxLen: nat): (r: Result<seq<byte>, Panic>)
    ensures |s| <= maxLen ==> r == Ok(s)
    ensures r.Ok? ==> |r.value| <= maxLen
    ensures r.Err? <==> |s| > maxLen && (maxLen < 3 || !IsCharBoundary(s, maxLen - 3))
    ensures |s| > maxLen && r.Ok? ==>
      |r.value| == maxLen && r.value[..maxLen - 3] == s[..maxLen - 3] && r.value[maxLen - 3..] == Ellipsis
  {
    if |s| > maxLen then
      if maxLen < 3 then Err(SubtractOverflow)
      else if !IsCharBoundary(s, maxLen - 3) then Err(SliceNotOnCharBoundary(maxLen - 3))
      else Ok(s[..maxLen - 3] + Ellipsis)
    else Ok(s)
  }

  /** ASCII text, as the callers' widths 19 and 35 are used for, is always cut cleanly. */
  lemma AsciiTruncateSucceeds(s: seq<byte>, maxLen: nat)
    requires IsAscii(s) && maxLen >= 3
    ensures Truncate(s, maxLen).Ok?
  {
    if |s| > maxLen {
      assert s[maxLen - 3] < 0x80;
    }
  }

  /** The largest character boundary of `s` at or before `k`. */
  function LastBoundary(s: seq<byte>, k: nat): (j: nat)
    requires k <= |s|
    ensures j <= k && IsCharBoundary(s, j)
    ensures forall i :: j < i <= k ==> !IsCharBoundary(s, i)
    decreases k
  {
    if IsCharBoundary(s, k) then k else LastBoundary(s, k - 1)
  }

  /**
   * `truncate` as evidently intended: cut at the last character boundary
   * that leaves room for "...", so that it never panics.
   */
  function TruncateAtBoundary(s: seq<byte>, maxLen: nat): (r: seq<byte>)
    requires maxLen >= 3
    ensures |r| <= maxLen
    ensures |s| <= maxLen ==> r == s
    ensures |s| > maxLen ==>
      && 3 <= |r|
      && r == s[..|r| - 3] + Ellipsis
      && IsCharBoundary(s, |r| - 3)
      && forall i :: |r| - 3 < i <= maxLen - 3 ==> !IsCharBoundary(s, i)
  {
    if |s| > maxLen then s[..LastBoundary(s, maxLen - 3)] + Ellipsis else s
  }

  /** Wherever `truncate` does not panic, the corrected version gives the same string. */
  lemma TruncateAtBoundaryAgrees(s: seq<byte>, maxLen: nat)
    requires maxLen >= 3 && Truncate(s, maxLen).Ok?
    ensures TruncateAtBoundary(s, maxLen) == Truncate(s, maxLen).value
  {
  }

  /** "一" seven times: 21 bytes, three per character. */
  const SevenCjk: seq<byte> := [
    0xE4, 0xB8, 0x80, 0xE4, 0xB8, 0x80, 0xE4, 0xB8, 0x80, 0xE4, 0xB8, 0x80,
    0xE4, 0xB8, 0x80, 0xE4, 0xB8, 0x80, 0xE4, 0xB8, 0x80]

  /**
   * A model name of seven CJK characters in the 19-byte column: byte 16 is
   * inside the sixth character, so `truncate` panics, while the corrected
   * version keeps five characters and appends "...".
   */
  lemma TruncatePanicsInsideCharacter()
    ensures Truncate(SevenCjk, 19) == Err(SliceNotOnCharBoundary(16))
    ensures TruncateAtBoundary(SevenCjk, 19) == SevenCjk[..15] + Ellipsis
  {
    assert !IsCharBoundary(SevenCjk, 16);
    assert IsCharBoundary(SevenCjk, 15);
  }

  /** `mask_api_key`: stars for a short key, else first four bytes, "***", last four bytes. */
  function MaskApiKey(key: seq<byte>): (r: Result<seq<byte>, Panic>)
    ensures key == [] ==> r == Ok([])
    ensures 0 < |key| <= 8 ==> r.Ok? && |r.value| == |key| && forall i :: 0 <= i < |r.value| ==> r.value[i] == Star
    ensures |key| > 8 ==> (r.Ok? <==> IsCharBoundary(key, 4) && IsCharBoundary(key, |key| - 4))
    ensures |key| > 8 && r.Ok? ==>
      && |r.value| == 11
      && r.value[..4] == key[..4]
      && r.value[4..7] == [Star, Star, Star]
      && r.value[7..] == key[|key| - 4..]
  {
    if key == [] then Ok([])
    else if |key| <= 8 then Ok(seq(|key|, _ => Star))
    else if !IsCharBoundary(key, 4) then Err(SliceNotOnCharBoundary(4))
    else if !IsCharBoundary(key, |key| - 4) then Err(SliceNotOnCharBoundary(|key| - 4))
    else Ok(key[..4] + [Star, Star, Star] + key[|key| - 4..])
  }

  /** An ASCII key is always masked without a panic. */
  lemma AsciiMaskSucceeds(key: seq<byte>)
    requires IsAscii(key)
    ensures MaskApiKey(key).Ok?
  {
    if |key| > 8 {
      assert key[4] < 0x80 && key[|key| - 4] < 0x80;
    }
  }
}
