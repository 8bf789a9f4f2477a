/**
 * The head of a CBOR data item (section 3 of RFC 8949): an initial byte holding the
 * major type (high 3 bits) and the additional information (low 5 bits), followed by
 * 0, 1, 2, 4 or 8 big-endian bytes of argument. A tag (major type 6, section 3.4 of
 * RFC 8949) is such a head whose argument is the tag number.
 */
module CborHead {
  import opened Wrappers

  type byte = x: int | 0 <= x < 0x100
  type u64 = x: int | 0 <= x < 0x1_0000_0000_0000_0000

  /** Major type 6: a tagged data item. */
  const MajorTypeTag: nat := 6

  function Pow256(w: nat): (r: nat)
    ensures r >= 1
  {
    if w == 0 then 1 else 256 * Pow256(w - 1)
  }

  lemma Pow256Widths()
    ensures Pow256(1) == 0x100 && Pow256(2) == 0x1_0000
    ensures Pow256(4) == 0x1_0000_0000 && Pow256(8) == 0x1_0000_0000_0000_0000
  {
  }

  /** The unsigned integer a big-endian byte string denotes; it fits in |s| bytes. */
  function FromBigEndian(s: seq<byte>): (n: nat)
    ensures n < Pow256(|s|)
  {
    if s == [] then 0
    else
      var hi := FromBigEndian(s[..|s| - 1]);
      assert hi * 256 + s[|s| - 1] < Pow256(|s|) by {
        assert hi <= Pow256(|s| - 1) - 1;
        assert hi * 256 <= (Pow256(|s| - 1) - 1) * 256;
      }
      hi * 256 + s[|s| - 1]
  }

  /** `n` written as exactly `w` big-endian bytes; reading them back gives `n`. */
  function ToBigEndian(n: nat, w: nat): (s: seq<byte>)
    requires n < Pow256(w)
    ensures |s| == w
    ensures FromBigEndian(s) == n
  {
    if w == 0 then []
    else
      var hi := ToBigEndian(n / 256, w - 1);
      assert (hi + [n % 256])[..w - 1] == hi;
      hi + [n % 256]
  }

  /** Number of argument bytes that follow an initial byte with additional information `info`. */
  function ArgumentWidth(info: nat): nat
  {
    if info < 24 then 0
    else if info == 24 then 1
    else if info == 25 then 2
    else if info == 26 then 4
    else 8
  }

  /**
   * The preferred (shortest) head for major type `major` and argument `arg`: arguments
   * below 24 sit in the initial byte, larger ones take additional information 24, 25, 26
   * or 27 followed by a 1-, 2-, 4- or 8-byte big-endian argument.
   */
  function Head(major: nat, arg: u64): (h: seq<byte>)
    requires major < 8
    ensures |h| >= 1 && h[0] / 32 == major
    ensures arg < 24 <==> |h| == 1
    ensures 0x100 <= arg < 0x1_0000 <==> |h| == 3
    ensures |h| > 1 ==> FromBigEndian(h[1..]) == arg
  {
    Pow256Widths();
    if arg < 24 then [major * 32 + arg]
    else if arg < 0x100 then [major * 32 + 24] + ToBigEndian(arg, 1)
    else if arg < 0x1_0000 then [major * 32 + 25] + ToBigEndian(arg, 2)
    else if arg < 0x1_0000_0000 then [major * 32 + 26] + ToBigEndian(arg, 4)
    else [major * 32 + 27] + ToBigEndian(arg, 8)
  }

  /** The head announcing tag number `num`. */
  function TagHead(num: u64): seq<byte>
  {
    Head(MajorTypeTag, num)
  }

  /** What a head says: its major type, its argument and how many bytes it took. */
  datatype HeadValue = HeadValue(major: nat, arg: u64, length: nat)

  /**
   * Reads the head at the start of `s`. Additional information 28 to 30 is reserved and
   * 31 marks an indefinite-length item or a break, neither of which carries an argument.
   */
  function DecodeHead(s: seq<byte>): (r: Option<HeadValue>)
    ensures r.Some? ==> r.value.major < 8 && 1 <= r.value.length <= |s|
    ensures r.Some? ==> s[0] % 32 < 28
  {
    if s == [] then None
    else
      var major, info := s[0] / 32, s[0] % 32;
      if info < 24 then Some(HeadValue(major, info, 1))
      else if info < 28 then
        var w := ArgumentWidth(info);
        if |s| < 1 + w then None
        else
          Pow256Widths();
          Some(HeadValue(major, FromBigEndian(s[1..1 + w]), 1 + w))
      else None
  }

  /** Reading back a head gives the major type and argument it was written from. */
  lemma {:induction false} DecodeHeadInvertsHead(major: nat, arg: u64, rest: seq<byte>)
    requires major < 8
    ensures DecodeHead(Head(major, arg) + rest) == Some(HeadValue(major, arg, |Head(major, arg)|))
  {
    var h := Head(major, arg);
    var s := h + rest;
    assert s[0] == h[0];
    if arg >= 24 {
      var info := s[0] % 32;
      assert 24 <= info < 28;
      var w := ArgumentWidth(info);
      assert |h| == 1 + w;
      assert s[1..1 + w] == h[1..];
    }
  }
}
