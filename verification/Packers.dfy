/** The byte packer of avalanchego's wrappers package: one growing buffer, a cursor and a sticky error. */
module Packers {
  import opened Words

  const MAX_STRING_LEN: nat := 0xFFFF

  class Packer {
    const maxSize: nat
    var bytes: Bytes
    var offset: nat
    var errored: bool

    /** A buffer being written has nothing after the cursor, unless a write failed. */
    ghost predicate Writing()
      reads this
    {
      offset <= |bytes| <= maxSize && (!errored ==> offset == |bytes|)
    }

    ghost predicate Reading()
      reads this
    {
      offset <= |bytes|
    }

    /** What a write of `bs` must do. */
    twostate predicate Wrote(bs: Bytes)
      reads this
    {
      && Writing()
      && (errored <==> old(errored) || old(|bytes|) + |bs| > maxSize)
      && (!errored ==> bytes == old(bytes) + bs)
    }

    /** What a read of `n` bytes must do to the cursor. */
    twostate predicate Advanced(n: nat)
      reads this
    {
      && bytes == old(bytes)
      && (errored <==> old(errored) || old(|bytes| - offset) < n)
      && offset == (if errored then old(offset) else old(offset) + n)
    }

    constructor Writer(limit: nat)
      ensures Writing() && !errored && bytes == [] && maxSize == limit
    {
      maxSize, bytes, offset, errored := limit, [], 0, false;
    }

    constructor Reader(src: Bytes, limit: nat)
      ensures Reading() && !errored && bytes == src && offset == 0
    {
      maxSize, bytes, offset, errored := limit, src, 0, false;
    }

    method Expand(n: nat)
      requires Writing()
      modifies this
      ensures offset == old(offset) && old(bytes) <= bytes && |bytes| <= maxSize
      ensures !errored ==> |bytes| == offset + n
      ensures errored <==> old(errored) || offset + n > maxSize
    {
      var needed := n + offset;
      if needed <= |bytes| {
        return;
      }
      if needed > maxSize {
        errored := true;
        return;
      }
      bytes := bytes + seq(needed - |bytes|, _ => 0);
    }

    method PackFixedBytes(bs: Bytes)
      requires Writing()
      modifies this
      ensures Wrote(bs)
    {
      Expand(|bs|);
      if errored {
        return;
      }
      bytes := bytes[..offset] + bs + bytes[offset + |bs|..];
      offset := offset + |bs|;
    }

    method PackByte(b: Byte)
      requires Writing()
      modifies this
      ensures Wrote([b])
    {
      Expand(1);
      if errored {
        return;
      }
      bytes := bytes[offset := b];
      offset := offset + 1;
    }

    /** PackShort, PackInt and PackLong: big-endian integers of 2, 4 and 8 bytes. */
    method PackUint(width: nat, v: nat)
      requires Writing()
      modifies this
      ensures Wrote(BE(width, v))
    {
      Expand(width);
      if errored {
        return;
      }
      bytes := bytes[..offset] + BE(width, v) + bytes[offset + width..];
      offset := offset + width;
    }

    method PackStr(s: Bytes)
      requires Writing()
      modifies this
      ensures Writing()
      ensures errored <==> old(errored) || |s| > MAX_STRING_LEN || old(|bytes|) + 2 + |s| > maxSize
      ensures !errored ==> bytes == old(bytes) + (BE(2, |s|) + s)
    {
      if |s| > MAX_STRING_LEN {
        errored := true;
        return;
      }
      PackUint(2, |s|);
      PackFixedBytes(s);
    }

    method CheckSpace(n: nat)
      requires Reading()
      modifies this`errored
      ensures errored <==> old(errored) || |bytes| - offset < n
    {
      if |bytes| - offset < n {
        errored := true;
      }
    }

    method UnpackFixedBytes(n: nat) returns (r: Bytes)
      requires Reading()
      modifies this
      ensures Reading() && Advanced(n)
      ensures r == if errored then [] else bytes[old(offset)..offset]
    {
      CheckSpace(n);
      if errored {
        return [];
      }
      r := bytes[offset..offset + n];
      offset := offset + n;
    }

    method UnpackByte() returns (r: Byte)
      requires Reading()
      modifies this
      ensures Reading() && Advanced(1)
      ensures !errored ==> r == bytes[old(offset)]
    {
      CheckSpace(1);
      if errored {
        return 0;
      }
      r := bytes[offset];
      offset := offset + 1;
    }

    method UnpackUint(width: nat) returns (r: nat)
      requires Reading()
      modifies this
      ensures Reading() && Advanced(width)
      ensures r == if errored then 0 else FromBE(bytes[old(offset)..offset])
    {
      CheckSpace(width);
      if errored {
        return 0;
      }
      r := FromBE(bytes[offset..offset + width]);
      offset := offset + width;
    }

    /** hypersdk's UnpackUint64(true): a decoded zero is an error as well. */
    method UnpackUint64Required() returns (r: U64)
      requires Reading()
      modifies this
      ensures Reading() && bytes == old(bytes)
      ensures errored <==> old(errored) || |bytes| - old(offset) < 8
                           || Parse64(bytes[old(offset)..old(offset) + 8]) == 0
      ensures !errored ==> r == Parse64(bytes[old(offset)..old(offset) + 8])
    {
      var v := UnpackUint(8);
      if errored {
        return 0;
      }
      assert v == Parse64(bytes[old(offset)..old(offset) + 8]);
      r := v;
      if r == 0 {
        errored := true;
      }
    }
  }
}
