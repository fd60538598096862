/** Bytes as received from the network, the client's byte-to-text reading,
    and the big-endian length fields of the Scorpion block format. */
module Bytes {
  import opened Wrappers
  import Strings

  newtype byte = x: int | 0 <= x < 256

  /** The text reading of a byte string (`String::from_utf8_lossy` in the
      client). Each byte becomes the character with the same code point,
      which agrees with the lossy UTF-8 reading on ASCII input; every
      delimiter, prefix and status code the client inspects is ASCII. */
  function Decode(b: seq<byte>): (s: string)
    ensures |s| == |b|
    ensures forall i :: 0 <= i < |b| ==> s[i] as int == b[i] as int
  {
    seq(|b|, i requires 0 <= i < |b| => (b[i] as int) as char)
  }

  /** The bytes of a string whose characters all fit in one byte. */
  function Encode(s: string): (b: seq<byte>)
    requires forall i :: 0 <= i < |s| ==> s[i] as int < 256
    ensures Decode(b) == s
  {
    seq(|s|, i requires 0 <= i < |s| => s[i] as int as byte)
  }

  lemma EncodeDecode(b: seq<byte>)
    ensures Encode(Decode(b)) == b
  {
  }

  const LF: byte := 0x0A

  /** Index of the first line feed. */
  function IndexOfLf(b: seq<byte>): (r: Option<nat>)
    ensures r.Some? ==> r.value < |b| && b[r.value] == LF && LF !in b[..r.value]
    ensures r.None? <==> LF !in b
  {
    if |b| == 0 then None
    else if b[0] == LF then Some(0)
    else match IndexOfLf(b[1..])
      case None => None
      case Some(i) => assert b[1..][..i] == b[1..i + 1]; Some(i + 1)
  }

  /** The bytes before and after the first line feed. */
  function SplitAtLf(b: seq<byte>): (r: Option<(seq<byte>, seq<byte>)>)
    ensures r.Some? ==> b == r.value.0 + [LF] + r.value.1 && LF !in r.value.0
    ensures r.None? <==> LF !in b
  {
    match IndexOfLf(b)
    case None => None
    case Some(i) =>
      assert b == b[..i] + [LF] + b[i + 1..];
      Some((b[..i], b[i + 1..]))
  }

  /** Splitting the bytes at the first line feed and reading both halves
      gives the same text as reading the whole and splitting at the first
      '\n', as the client does for the text protocols. */
  lemma DecodeThenSplit(b: seq<byte>)
    ensures SplitAtLf(b).None? <==> Strings.SplitOnce(Decode(b), '\n').None?
    ensures SplitAtLf(b).Some? ==>
      Strings.SplitOnce(Decode(b), '\n')
        == Some((Decode(SplitAtLf(b).value.0), Decode(SplitAtLf(b).value.1)))
  {
    LfInDecode(b);
    match SplitAtLf(b)
    case None =>
    case Some((x, y)) =>
      LfInDecode(x);
      DecodeAround(x, y);
      Strings.SplitOnceOfConcat(Decode(x), '\n', Decode(y));
  }

  /** A line feed byte reads as '\n' and no other byte does. */
  lemma LfInDecode(b: seq<byte>)
    ensures LF in b <==> '\n' in Decode(b)
  {
    var s := Decode(b);
    if LF in b {
      var i :| 0 <= i < |b| && b[i] == LF;
      assert s[i] == '\n';
    }
    if '\n' in s {
      var i :| 0 <= i < |s| && s[i] == '\n';
      assert b[i] == LF;
    }
  }

  /** Reading bytes split around a line feed reads each part. */
  lemma DecodeAround(x: seq<byte>, y: seq<byte>)
    ensures Decode(x + [LF] + y) == Decode(x) + ['\n'] + Decode(y)
  {
    var l := Decode(x + [LF] + y);
    var r := Decode(x) + ['\n'] + Decode(y);
    assert |l| == |r|;
    forall i | 0 <= i < |l|
      ensures l[i] == r[i]
    {
      if i > |x| {
        assert (x + [LF] + y)[i] == y[i - |x| - 1];
      }
    }
  }

  /** A 2-byte big-endian unsigned field. */
  function BigEndian16(hi: byte, lo: byte): (n: nat)
    ensures n < 0x1_0000
  {
    hi as nat * 0x100 + lo as nat
  }

  /** A 3-byte big-endian unsigned field. */
  function BigEndian24(hi: byte, mid: byte, lo: byte): (n: nat)
    ensures n < 0x100_0000
  {
    hi as nat * 0x1_0000 + mid as nat * 0x100 + lo as nat
  }

  function ToBigEndian16(n: nat): (b: seq<byte>)
    requires n < 0x1_0000
    ensures |b| == 2
  {
    [(n / 0x100) as byte, (n % 0x100) as byte]
  }

  function ToBigEndian24(n: nat): (b: seq<byte>)
    requires n < 0x100_0000
    ensures |b| == 3
  {
    [(n / 0x1_0000) as byte, (n / 0x100 % 0x100) as byte, (n % 0x100) as byte]
  }

  /** Writing a 2-byte length field and reading it back is the identity. */
  lemma BigEndian16RoundTrip(n: nat)
    requires n < 0x1_0000
    ensures var b := ToBigEndian16(n); BigEndian16(b[0], b[1]) == n
  {
  }

  /** Writing a 3-byte length field and reading it back is the identity. */
  lemma BigEndian24RoundTrip(n: nat)
    requires n < 0x100_0000
    ensures var b := ToBigEndian24(n); BigEndian24(b[0], b[1], b[2]) == n
  {
  }

  /** `b & 0x0F`. */
  function LowNibble(b: byte): (n: byte)
    ensures n < 16 && (b as int - n as int) % 16 == 0
  {
    b % 16
  }

  /** `b & 0xF0`. */
  function HighNibble(b: byte): (n: byte)
    ensures n as int % 16 == 0 && n as int <= b as int < n as int + 16
  {
    b - b % 16
  }
}
