/** Python's `s[:stop]` with a step of one, including negative and
    out-of-range stops. */
module PySlice {

  /** `s[:stop]`: a negative stop counts from the end, and the result is
      clamped to `[0, |s|]`. */
  function Prefix<T>(s: seq<T>, stop: int): (r: seq<T>)
    ensures r <= s
    ensures 0 <= stop ==> |r| == (if stop < |s| then stop else |s|)
    ensures stop < 0 ==> |r| == (if -stop < |s| then |s| + stop else 0)
  {
    var k := if stop < 0 then stop + |s| else stop;
    if k <= 0 then [] else if k >= |s| then s else s[..k]
  }

  /** A negative stop keeps everything except the last `-stop` elements:
      what is dropped is exactly the tail of that length (or all of `s`). */
  lemma NegativeStopDropsTail<T>(s: seq<T>, stop: int)
    requires stop < 0
    ensures var dropped := if -stop < |s| then -stop else |s|;
            Prefix(s, stop) + s[|s| - dropped..] == s
  {
  }

  /** Among stops of the same sign, a larger stop never yields fewer
      elements, and the shorter result is a prefix of the longer one. Across
      zero this fails: `s[:-1]` is longer than `s[:0]`. */
  lemma PrefixMonotone<T>(s: seq<T>, a: int, b: int)
    requires a <= b
    requires a < 0 <==> b < 0
    ensures Prefix(s, a) <= Prefix(s, b)
  {
  }
}
