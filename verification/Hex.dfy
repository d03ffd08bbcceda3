/** encoding/hex as the session code uses it: %x, EncodeToString and DecodeString. */
module Hex {
  import opened Bytes

  function Digit(n: nat): char
    requires n < 16
  {
    if n < 10 then '0' + n as char else 'a' + (n - 10) as char
  }

  function Value(ch: char): (r: Option<nat>)
    ensures r.Some? ==> r.value < 16
  {
    if '0' <= ch <= '9' then Some(ch as nat - '0' as nat)
    else if 'a' <= ch <= 'f' then Some(ch as nat - 'a' as nat + 10)
    else if 'A' <= ch <= 'F' then Some(ch as nat - 'A' as nat + 10)
    else None
  }

  function EncodeHex(s: seq<byte>): string {
    if |s| == 0 then "" else [Digit(s[0] / 16), Digit(s[0] % 16)] + EncodeHex(s[1..])
  }

  /** The bytes decoded before the first error, and whether there was none. */
  function DecodeHex(s: string): (seq<byte>, bool) {
    if |s| < 2 then ([], s == "")
    else match (Value(s[0]), Value(s[1]))
         case (Some(hi), Some(lo)) =>
           var (rest, ok) := DecodeHex(s[2..]);
           ([16 * hi + lo] + rest, ok)
         case _ => ([], false)
  }

  lemma {:induction false} HexRoundTrip(s: seq<byte>)
    ensures DecodeHex(EncodeHex(s)) == (s, true)
    decreases |s|
  {
    if |s| > 0 {
      HexRoundTrip(s[1..]);
      var e := EncodeHex(s);
      assert e[2..] == EncodeHex(s[1..]);
      assert e[0] == Digit(s[0] / 16) && e[1] == Digit(s[0] % 16);
      assert s == [s[0]] + s[1..];
      assert Value(Digit(s[0] / 16)) == Some(s[0] / 16) && Value(Digit(s[0] % 16)) == Some(s[0] % 16);
    }
  }
}
