/** Little-endian integers in byte sequences. */
module Bytes {
  import opened Messages

  /** How many values fit in n bytes. */
  function Limit(n: nat): (r: nat)
    ensures r > 0
  {
    if n == 0 then 1 else 256 * Limit(n - 1)
  }

  function Zeros(n: nat): (r: seq<byte>)
    ensures |r| == n
  {
    seq(n, _ => 0)
  }

  predicate AllZero(s: seq<byte>) { forall i :: 0 <= i < |s| ==> s[i] == 0 }

  function Le(n: nat, v: nat): (r: seq<byte>)
    ensures |r| == n
  {
    if n == 0 then [] else [v % 256] + Le(n - 1, v / 256)
  }

  function FromLe(s: seq<byte>): (r: nat)
    ensures r < Limit(|s|)
  {
    if s == [] then 0 else s[0] + 256 * FromLe(s[1..])
  }

  lemma {:induction false} LeRoundTrip(n: nat, v: nat)
    requires v < Limit(n)
    ensures FromLe(Le(n, v)) == v
  {
    if n > 0 {
      LeRoundTrip(n - 1, v / 256);
      assert Le(n, v)[1..] == Le(n - 1, v / 256);
    }
  }

  lemma {:induction false} LeCanonical(s: seq<byte>)
    ensures Le(|s|, FromLe(s)) == s
  {
    if s != [] {
      LeCanonical(s[1..]);
      assert s == [s[0]] + s[1..];
    }
  }

  lemma ZerosAre(s: seq<byte>)
    requires AllZero(s)
    ensures s == Zeros(|s|)
  {
  }

  /** Adjacent cuts of a byte string join. */
  lemma Joins(s: seq<byte>, a: nat, b: nat, c: nat)
    requires a <= b <= c <= |s|
    ensures s[a..b] + s[b..c] == s[a..c]
  {
  }

  lemma Within(s: seq<byte>, a: nat, b: nat, c: nat, d: nat)
    requires a <= b <= |s| && c <= d <= b - a
    ensures s[a..b][c..d] == s[a + c..a + d]
  {
    assert forall i :: 0 <= i < d - c ==> s[a..b][c..d][i] == s[a + c + i];
  }

  // ---- Integers at an offset ----

  function Read16(s: seq<byte>, at: nat): (r: u16)
    requires at + 2 <= |s|
  {
    assert Limit(2) == 0x1_0000;
    FromLe(s[at..at + 2])
  }

  function Read32(s: seq<byte>, at: nat): (r: u32)
    requires at + 4 <= |s|
  {
    assert Limit(4) == 0x1_0000_0000;
    FromLe(s[at..at + 4])
  }

  function Read64(s: seq<byte>, at: nat): (r: u64)
    requires at + 8 <= |s|
  {
    assert Limit(8) == 0x1_0000_0000_0000_0000;
    FromLe(s[at..at + 8])
  }

  /** A written integer is read back, and what is read re-encodes to the bytes it came from. */
  lemma ReadsBack16(s: seq<byte>, at: nat, v: u16)
    requires at + 2 <= |s| && s[at..at + 2] == Le(2, v)
    ensures Read16(s, at) == v
  {
    assert Limit(2) == 0x1_0000;
    LeRoundTrip(2, v);
  }

  lemma ReadsBack32(s: seq<byte>, at: nat, v: u32)
    requires at + 4 <= |s| && s[at..at + 4] == Le(4, v)
    ensures Read32(s, at) == v
  {
    assert Limit(4) == 0x1_0000_0000;
    LeRoundTrip(4, v);
  }

  lemma ReadsBack64(s: seq<byte>, at: nat, v: u64)
    requires at + 8 <= |s| && s[at..at + 8] == Le(8, v)
    ensures Read64(s, at) == v
  {
    assert Limit(8) == 0x1_0000_0000_0000_0000;
    LeRoundTrip(8, v);
  }

  lemma WritesBack16(s: seq<byte>, at: nat)
    requires at + 2 <= |s|
    ensures Le(2, Read16(s, at)) == s[at..at + 2]
  {
    LeCanonical(s[at..at + 2]);
  }

  lemma WritesBack32(s: seq<byte>, at: nat)
    requires at + 4 <= |s|
    ensures Le(4, Read32(s, at)) == s[at..at + 4]
  {
    LeCanonical(s[at..at + 4]);
  }

  lemma WritesBack64(s: seq<byte>, at: nat)
    requires at + 8 <= |s|
    ensures Le(8, Read64(s, at)) == s[at..at + 8]
  {
    LeCanonical(s[at..at + 8]);
  }
}
