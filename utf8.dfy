/**
 * Rust's `str` is a sequence of UTF-8 bytes; `len()` counts bytes and a slice
 * `&s[..k]` panics unless `k` is a character boundary. This module states
 * those rules over plain byte sequences.
 */
module Utf8 {

  newtype byte = x: int | 0 <= x < 256

  /** A byte that starts a character: anything but a continuation byte 0b10xx_xxxx. */
  predicate IsLead(b: byte) {
    b < 0x80 || 0xC0 <= b
  }

  /** `str::is_char_boundary`: the two ends, or an index whose byte starts a character. */
  predicate IsCharBoundary(s: seq<byte>, k: nat) {
    k == 0 || k == |s| || (k < |s| && IsLead(s[k]))
  }

  predicate IsAscii(s: seq<byte>) {
    forall i :: 0 <= i < |s| ==> s[i] < 0x80
  }

  /** The number of characters in `s`: the number of bytes that start one. */
  function CharCount(s: seq<byte>): (n: nat)
    ensures n <= |s|
  {
    if s == [] then 0
    else CharCount(s[..|s| - 1]) + (if IsLead(s[|s| - 1]) then 1 else 0)
  }

  /** Counting characters of a longer prefix never gives fewer, and at most one more per byte. */
  lemma {:induction false} CharCountPrefix(s: seq<byte>, i: nat, j: nat)
    ensures i <= j <= |s| ==> CharCount(s[..i]) <= CharCount(s[..j]) <= CharCount(s[..i]) + (j - i)
    decreases if i <= j then j - i else 0
  {
    if i < j <= |s| {
      CharCountPrefix(s, i, j - 1);
      assert s[..j][..j - 1] == s[..j - 1];
    }
  }
}
