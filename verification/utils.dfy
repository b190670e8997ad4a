/** Shortening of long hashes and addresses for display (src/utils.ts). */
module Utils {
  const Ellipsis: string := "..."

  /** Strings of at most ten characters are shown whole; longer ones keep
      their first six and last four characters around an ellipsis. */
  function TruncateHashOrAddress(value: string): (r: string)
    ensures |value| <= 10 ==> r == value
    ensures |value| > 10 ==> |r| == 13
    ensures |value| > 10 ==>
      r[..6] == value[..6] && r[6..9] == Ellipsis && r[9..] == value[|value| - 4..]
  {
    if |value| <= 10 then value
    else value[..6] + Ellipsis + value[|value| - 4..]
  }

  /** Truncating an already truncated string changes nothing. */
  lemma TruncateIdempotent(value: string)
    ensures TruncateHashOrAddress(TruncateHashOrAddress(value)) == TruncateHashOrAddress(value)
  {
    var r := TruncateHashOrAddress(value);
    if |value| > 10 {
      var rr := TruncateHashOrAddress(r);
      assert rr == r[..6] + Ellipsis + r[9..];
      assert r == r[..6] + r[6..9] + r[9..];
    }
  }
}
