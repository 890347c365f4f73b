/** The loop-based right pad of `utils/stringHelpers.js`. */
module StringHelpers {
  import opened Text

  /** `padEndManual(value, len)`: appends one space at a time to `String(value)`
      until it is `len` units long.  The result is exactly the built-in
      `padEnd` of the same string (`Text.PadEnd`). */
  method PadEndManual(value: Str, len: int) returns (str: Str)
    ensures str == PadEnd(value, len)
    ensures |str| == Max(|value|, len)
    ensures str[..|value|] == value
    ensures forall i :: |value| <= i < |str| ==> str[i] == Space
    ensures |value| >= len ==> str == value
  {
    str := value;
    while |str| < len
      invariant |value| <= |str| <= Max(|value|, len)
      invariant str[..|value|] == value
      invariant forall i :: |value| <= i < |str| ==> str[i] == Space
      decreases len - |str|
    {
      str := str + [Space];
    }
    assert str == value + Spaces(|str| - |value|);
  }

  /** Padding an already padded string to the same width changes nothing. */
  lemma PadEndIdempotent(s: Str, n: int)
    ensures PadEnd(PadEnd(s, n), n) == PadEnd(s, n)
  {
  }
}
