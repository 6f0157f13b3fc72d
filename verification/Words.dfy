/** Machine integers, bytes and big-endian layout.  The Go code computes in uint64 with
    wrap-around; `Wrap` is that reduction, written out wherever the code relies on it. */
module Words {

  const TWO_8: int := 0x100
  const TWO_63: int := 0x8000_0000_0000_0000
  const TWO_64: int := 0x1_0000_0000_0000_0000

  type Byte = x: int | 0 <= x < 0x100
  type Bytes = seq<Byte>
  type U64 = x: int | 0 <= x < TWO_64
  type I64 = x: int | -TWO_63 <= x < TWO_63

  function Wrap(x: nat): (r: U64) {
    x % TWO_64
  }

  /** The uint64 that holds the same bits as an int64, and back. */
  function ToBits(x: I64): U64 {
    if x < 0 then x + TWO_64 else x
  }

  function FromBits(u: U64): I64 {
    if u < TWO_63 then u else u - TWO_64
  }

  ghost function Pow256(n: nat): nat {
    if n == 0 then 1 else TWO_8 * Pow256(n - 1)
  }

  /** The low `width` bytes of `x`, most significant first. */
  function BE(width: nat, x: nat): (r: Bytes)
    ensures |r| == width
  {
    if width == 0 then [] else BE(width - 1, x / TWO_8) + [x % TWO_8]
  }

  function FromBE(s: Bytes): nat {
    if s == [] then 0 else FromBE(s[..|s| - 1]) * TWO_8 + s[|s| - 1]
  }

  lemma {:induction false} FromBEOfBE(width: nat, x: nat)
    requires x < Pow256(width)
    ensures FromBE(BE(width, x)) == x
  {
    if width != 0 {
      FromBEOfBE(width - 1, x / TWO_8);
      var r := BE(width, x);
      assert r[..|r| - 1] == BE(width - 1, x / TWO_8);
    }
  }

  lemma {:induction false} BEOfFromBE(s: Bytes)
    ensures BE(|s|, FromBE(s)) == s
    ensures FromBE(s) < Pow256(|s|)
  {
    if s != [] {
      BEOfFromBE(s[..|s| - 1]);
      assert s == s[..|s| - 1] + [s[|s| - 1]];
    }
  }

  lemma Widths()
    ensures Pow256(2) == 0x1_0000 && Pow256(4) == 0x1_0000_0000 && Pow256(8) == TWO_64
  {
    assert Pow256(4) == 0x1_0000_0000;
    assert Pow256(6) == 0x1_0000_0000_0000;
  }

  /** An 8-byte big-endian amount: binary.BigEndian.PutUint64 and its reader. */
  function Pack64(x: U64): (r: Bytes)
    ensures |r| == 8
  {
    BE(8, x)
  }

  function Parse64(s: Bytes): (r: U64)
    requires |s| == 8
  {
    BEOfFromBE(s);
    Widths();
    FromBE(s)
  }

  lemma Parse64OfPack64(x: U64)
    ensures Parse64(Pack64(x)) == x
  {
    Widths();
    FromBEOfBE(8, x);
  }

  lemma Pack64OfParse64(s: Bytes)
    requires |s| == 8
    ensures Pack64(Parse64(s)) == s
  {
    BEOfFromBE(s);
  }

  /** The first byte is the most significant one. */
  lemma {:induction false} HighByteFirst(s: Bytes)
    requires s != []
    ensures FromBE(s) == s[0] * Pow256(|s| - 1) + FromBE(s[1..])
  {
    if |s| == 1 {
      assert s[..0] == [] && s[1..] == [];
    } else {
      var n, h: int := |s| - 1, s[0];
      HighByteFirst(s[..n]);
      assert s[..n][1..] == s[1..][..n - 1];
      Scale(h, Pow256(n - 1));
    }
  }

  lemma Scale(h: int, p: nat)
    ensures h * (TWO_8 * p) == TWO_8 * (h * p)
  {
  }

  /** Additions modulo 2^64 may be done in either order. */
  lemma WrapAddCommutes(x: nat, a: nat, b: nat)
    ensures Wrap(Wrap(x + a) + b) == Wrap(Wrap(x + b) + a)
  {
    WrapAdd(x + a, b);
    WrapAdd(x + b, a);
  }

  lemma WrapAdd(x: nat, a: nat)
    ensures Wrap(Wrap(x) + a) == Wrap(x + a)
  {
    var q := x / TWO_64;
    assert x == q * TWO_64 + x % TWO_64;
    assert (q * TWO_64 + (x % TWO_64 + a)) % TWO_64 == (x % TWO_64 + a) % TWO_64;
  }
}
