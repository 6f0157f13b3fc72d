/** avalanchego's linear codec, for the field types this repository serializes.  A struct is the list
    of its fields in declaration order; integers are big-endian; a string carries a 2-byte length,
    a byte slice a 4-byte length, a byte array nothing. */
module Codec {
  import opened Words
  import opened Outcomes
  import opened Packers

  const MAX_SLICE_LEN: nat := 0x7FFF_FFFF

  datatype Kind = KByte | KLong | KString | KArray(size: nat) | KSlice

  datatype Field =
    | FByte(b: Byte)
    | FLong(v: U64)
    | FString(s: Bytes)
    | FArray(s: Bytes)
    | FSlice(s: Bytes)
  {
    function Kind(): Kind {
      match this
      case FByte(_) => KByte
      case FLong(_) => KLong
      case FString(_) => KString
      case FArray(s) => KArray(|s|)
      case FSlice(_) => KSlice
    }

    /** Lengths the length prefixes can hold; longer values make the packer fail. */
    predicate Encodable() {
      && (FString? ==> |s| <= MAX_STRING_LEN)
      && (FSlice? ==> |s| <= MAX_SLICE_LEN)
    }

    function Encode(): (r: Bytes) {
      match this
      case FByte(b) => [b]
      case FLong(v) => Pack64(v)
      case FString(s) => BE(2, |s|) + s
      case FArray(s) => s
      case FSlice(s) => BE(4, |s|) + s
    }
  }

  function EncodeFields(fs: seq<Field>): Bytes {
    if fs == [] then [] else fs[0].Encode() + EncodeFields(fs[1..])
  }

  predicate OfKinds(fs: seq<Field>, ks: seq<Kind>) {
    |fs| == |ks| && forall i :: 0 <= i < |fs| ==> fs[i].Kind() == ks[i]
  }

  predicate Encodable(fs: seq<Field>) {
    forall i :: 0 <= i < |fs| ==> fs[i].Encodable()
  }

  /** A value read off the front of the input, and the input that is left. */
  datatype Parsed<T> = Parsed(value: T, rest: Bytes)

  function DecodePrefixed(width: nat, limit: nat, bs: Bytes): Option<Parsed<Bytes>> {
    if |bs| < width then None
    else
      var n := FromBE(bs[..width]);
      if n > limit || |bs| - width < n then None
      else Some(Parsed(bs[width..width + n], bs[width + n..]))
  }

  function DecodeField(k: Kind, bs: Bytes): Option<Parsed<Field>> {
    match k
    case KByte =>
      if |bs| < 1 then None else Some(Parsed(FByte(bs[0]), bs[1..]))
    case KLong =>
      if |bs| < 8 then None else Some(Parsed(FLong(Parse64(bs[..8])), bs[8..]))
    case KString =>
      (match DecodePrefixed(2, MAX_STRING_LEN, bs)
       case None => None
       case Some(p) => Some(Parsed(FString(p.value), p.rest)))
    case KArray(size) =>
      if |bs| < size then None else Some(Parsed(FArray(bs[..size]), bs[size..]))
    case KSlice =>
      (match DecodePrefixed(4, MAX_SLICE_LEN, bs)
       case None => None
       case Some(p) => Some(Parsed(FSlice(p.value), p.rest)))
  }

  /** What the unmarshaller reads; it never looks at what follows the last field. */
  function DecodeFields(ks: seq<Kind>, bs: Bytes): Option<Parsed<seq<Field>>> {
    if ks == [] then Some(Parsed([], bs))
    else
      match DecodeField(ks[0], bs)
      case None => None
      case Some(p) =>
        match DecodeFields(ks[1..], p.rest)
        case None => None
        case Some(q) => Some(Parsed([p.value] + q.value, q.rest))
  }

  lemma PrefixedRoundTrip(width: nat, limit: nat, s: Bytes, rest: Bytes)
    requires |s| <= limit < Pow256(width)
    ensures DecodePrefixed(width, limit, BE(width, |s|) + s + rest) == Some(Parsed(s, rest))
  {
    var bs := BE(width, |s|) + s + rest;
    FromBEOfBE(width, |s|);
    assert bs[..width] == BE(width, |s|);
    assert bs[width..width + |s|] == s;
    assert bs[width + |s|..] == rest;
  }

  lemma PrefixedCanonical(width: nat, limit: nat, bs: Bytes)
    requires DecodePrefixed(width, limit, bs).Some?
    ensures var p := DecodePrefixed(width, limit, bs).value;
            |p.value| <= limit && bs == BE(width, |p.value|) + p.value + p.rest
  {
    BEOfFromBE(bs[..width]);
  }

  lemma FieldRoundTrip(f: Field, rest: Bytes)
    requires f.Encodable()
    ensures DecodeField(f.Kind(), f.Encode() + rest) == Some(Parsed(f, rest))
  {
    Widths();
    var bs := f.Encode() + rest;
    match f
    case FByte(b) =>
      assert bs[1..] == rest;
    case FLong(v) =>
      Parse64OfPack64(v);
      assert bs[..8] == Pack64(v) && bs[8..] == rest;
    case FString(s) =>
      PrefixedRoundTrip(2, MAX_STRING_LEN, s, rest);
    case FArray(s) =>
      assert bs[..|s|] == s && bs[|s|..] == rest;
    case FSlice(s) =>
      PrefixedRoundTrip(4, MAX_SLICE_LEN, s, rest);
  }

  lemma FieldCanonical(k: Kind, bs: Bytes)
    requires DecodeField(k, bs).Some?
    ensures var p := DecodeField(k, bs).value;
            p.value.Kind() == k && p.value.Encodable() && bs == p.value.Encode() + p.rest
  {
    match k
    case KByte =>
    case KLong => Pack64OfParse64(bs[..8]);
    case KString => PrefixedCanonical(2, MAX_STRING_LEN, bs);
    case KArray(_) =>
    case KSlice => PrefixedCanonical(4, MAX_SLICE_LEN, bs);
  }

  lemma DecodeCons(ks: seq<Kind>, bs: Bytes, f: Field, tail: Bytes, fs: seq<Field>, rest: Bytes)
    requires ks != [] && DecodeField(ks[0], bs) == Some(Parsed(f, tail))
    requires DecodeFields(ks[1..], tail) == Some(Parsed(fs, rest))
    ensures DecodeFields(ks, bs) == Some(Parsed([f] + fs, rest))
  {
  }

  /** Decoding inverts encoding and ignores whatever follows. */
  lemma {:induction false} FieldsRoundTrip(ks: seq<Kind>, fs: seq<Field>, rest: Bytes)
    requires OfKinds(fs, ks) && Encodable(fs)
    ensures DecodeFields(ks, EncodeFields(fs) + rest) == Some(Parsed(fs, rest))
  {
    hide DecodeField, Field.Kind, Field.Encode, Field.Encodable;
    if fs == [] {
      assert EncodeFields(fs) + rest == rest;
    } else {
      var bs, tail := EncodeFields(fs) + rest, EncodeFields(fs[1..]) + rest;
      assert bs == fs[0].Encode() + tail;
      FieldRoundTrip(fs[0], tail);
      FieldsRoundTrip(ks[1..], fs[1..], rest);
      DecodeCons(ks, bs, fs[0], tail, fs[1..], rest);
      assert [fs[0]] + fs[1..] == fs;
    }
  }

  /** Nothing but an encoding decodes: the accepted inputs are exactly the encodings and their extensions. */
  lemma {:induction false} FieldsCanonical(ks: seq<Kind>, bs: Bytes)
    requires DecodeFields(ks, bs).Some?
    ensures var p := DecodeFields(ks, bs).value;
            OfKinds(p.value, ks) && Encodable(p.value) && bs == EncodeFields(p.value) + p.rest
  {
    if ks != [] {
      FieldCanonical(ks[0], bs);
      var head := DecodeField(ks[0], bs).value;
      FieldsCanonical(ks[1..], head.rest);
      var tail := DecodeFields(ks[1..], head.rest).value;
      var fs := [head.value] + tail.value;
      assert fs[1..] == tail.value;
      assert bs == head.value.Encode() + (EncodeFields(tail.value) + tail.rest);
      assert bs == EncodeFields(fs) + tail.rest;
    }
  }

  lemma EncodeStep(fs: seq<Field>, i: nat)
    requires i < |fs|
    ensures EncodeFields(fs[i..]) == fs[i].Encode() + EncodeFields(fs[i + 1..])
  {
    assert fs[i..][1..] == fs[i + 1..];
  }

  /** The parts one after another. */
  function Joined(parts: seq<Bytes>): Bytes {
    if parts == [] then [] else parts[0] + Joined(parts[1..])
  }

  lemma {:induction false} EncodeFieldsJoins(fs: seq<Field>, parts: seq<Bytes>)
    requires |parts| == |fs| && forall i :: 0 <= i < |fs| ==> parts[i] == fs[i].Encode()
    ensures EncodeFields(fs) == Joined(parts)
  {
    hide Field.Encode;
    if fs != [] {
      EncodeFieldsJoins(fs[1..], parts[1..]);
    }
  }

  lemma DecodeStep(ks: seq<Kind>, i: nat, bs: Bytes)
    requires i < |ks|
    ensures DecodeFields(ks[i..], bs) ==
            match DecodeField(ks[i], bs)
            case None => None
            case Some(p) =>
              match DecodeFields(ks[i + 1..], p.rest)
              case None => None
              case Some(q) => Some(Parsed([p.value] + q.value, q.rest))
  {
    assert ks[i..][1..] == ks[i + 1..];
  }

  /** Arrays are written one element at a time. */
  method MarshalArray(s: Bytes, p: Packer) returns (ok: bool)
    requires p.Writing() && !p.errored
    modifies p
    ensures p.Writing()
    ensures ok <==> old(|p.bytes|) + |s| <= p.maxSize
    ensures ok ==> !p.errored && p.bytes == old(p.bytes) + s
  {
    var i := 0;
    while i < |s|
      invariant 0 <= i <= |s|
      invariant p.Writing() && !p.errored
      invariant p.bytes == old(p.bytes) + s[..i]
    {
      p.PackByte(s[i]);
      if p.errored {
        return false;
      }
      assert s[..i + 1] == s[..i] + [s[i]];
      i := i + 1;
    }
    ok := true;
  }

  method MarshalSlice(s: Bytes, p: Packer) returns (ok: bool)
    requires p.Writing() && !p.errored
    modifies p
    ensures p.Writing()
    ensures ok <==> |s| <= MAX_SLICE_LEN && old(|p.bytes|) + 4 + |s| <= p.maxSize
    ensures ok ==> !p.errored && p.bytes == old(p.bytes) + (BE(4, |s|) + s)
  {
    if |s| > MAX_SLICE_LEN {
      return false;
    }
    p.PackUint(4, |s|);
    if p.errored {
      return false;
    }
    if |s| != 0 {
      p.PackFixedBytes(s);
    }
    ok := !p.errored;
  }

  /** Packs one field as the reflection codec does for its type. */
  method MarshalField(f: Field, p: Packer) returns (ok: bool)
    requires p.Writing() && !p.errored
    modifies p
    ensures p.Writing()
    ensures ok <==> f.Encodable() && old(|p.bytes|) + |f.Encode()| <= p.maxSize
    ensures ok ==> !p.errored && p.bytes == old(p.bytes) + f.Encode()
  {
    match f {
      case FByte(b) =>
        p.PackByte(b);
        ok := !p.errored;
      case FLong(v) =>
        p.PackUint(8, v);
        ok := !p.errored;
      case FString(s) =>
        p.PackStr(s);
        ok := !p.errored;
      case FArray(s) =>
        ok := MarshalArray(s, p);
      case FSlice(s) =>
        ok := MarshalSlice(s, p);
    }
  }

  /** LinearCodec.MarshalInto on a struct: succeeds exactly when the whole encoding fits the limit. */
  method MarshalInto(fs: seq<Field>, p: Packer) returns (ok: bool)
    requires p.Writing() && !p.errored
    modifies p
    ensures p.Writing()
    ensures ok <==> Encodable(fs) && old(|p.bytes|) + |EncodeFields(fs)| <= p.maxSize
    ensures ok ==> !p.errored && p.bytes == old(p.bytes) + EncodeFields(fs)
  {
    var i := 0;
    assert fs[0..] == fs;
    ghost var full := p.bytes + EncodeFields(fs);
    while i < |fs|
      invariant 0 <= i <= |fs|
      invariant p.Writing() && !p.errored
      invariant forall j :: 0 <= j < i ==> fs[j].Encodable()
      invariant p.bytes + EncodeFields(fs[i..]) == full
    {
      EncodeStep(fs, i);
      ghost var before := p.bytes;
      var done := MarshalField(fs[i], p);
      if !done {
        assert |full| == |before| + |fs[i].Encode()| + |EncodeFields(fs[i + 1..])|;
        return false;
      }
      assert full == before + fs[i].Encode() + EncodeFields(fs[i + 1..]);
      i := i + 1;
    }
    ok := true;
  }

  /** Reads a length prefix and then that many bytes. */
  method UnmarshalPrefixed(width: nat, limit: nat, p: Packer) returns (r: Option<Bytes>)
    requires p.Reading() && !p.errored
    modifies p
    ensures p.Reading() && p.bytes == old(p.bytes)
    ensures match DecodePrefixed(width, limit, old(p.bytes[p.offset..]))
            case None => r == None
            case Some(q) => r == Some(q.value) && !p.errored && p.bytes[p.offset..] == q.rest
  {
    ghost var input := p.bytes[p.offset..];
    var n := p.UnpackUint(width);
    if p.errored {
      return None;
    }
    assert p.bytes[old(p.offset)..p.offset] == input[..width];
    if n > limit {
      return None;
    }
    assert p.bytes[p.offset..] == input[width..];
    var s := p.UnpackFixedBytes(n);
    if p.errored {
      return None;
    }
    assert s == input[width..width + n];
    assert p.bytes[p.offset..] == input[width + n..];
    r := Some(s);
  }

  /** Reads one field at the cursor. */
  method UnmarshalField(k: Kind, p: Packer) returns (r: Option<Field>)
    requires p.Reading() && !p.errored
    modifies p
    ensures p.Reading() && p.bytes == old(p.bytes)
    ensures match DecodeField(k, old(p.bytes[p.offset..]))
            case None => r == None
            case Some(q) => r == Some(q.value) && !p.errored && p.bytes[p.offset..] == q.rest
  {
    ghost var input := p.bytes[p.offset..];
    match k {
      case KByte =>
        var b := p.UnpackByte();
        r := if p.errored then None else Some(FByte(b));
      case KLong =>
        var v := p.UnpackFixedBytes(8);
        if p.errored {
          return None;
        }
        assert v == input[..8];
        r := Some(FLong(Parse64(v)));
      case KString =>
        var s := UnmarshalPrefixed(2, MAX_STRING_LEN, p);
        r := if s == None then None else Some(FString(s.value));
      case KArray(size) =>
        var s := p.UnpackFixedBytes(size);
        assert !p.errored ==> s == input[..size];
        r := if p.errored then None else Some(FArray(s));
      case KSlice =>
        var s := UnmarshalPrefixed(4, MAX_SLICE_LEN, p);
        r := if s == None then None else Some(FSlice(s.value));
    }
  }

  /** LinearCodec.UnmarshalFrom into a struct whose fields have the given kinds. */
  method UnmarshalFrom(ks: seq<Kind>, p: Packer) returns (r: Option<seq<Field>>)
    requires p.Reading() && !p.errored
    modifies p
    ensures match DecodeFields(ks, old(p.bytes[p.offset..]))
            case None => r == None
            case Some(q) => r == Some(q.value)
  {
    ghost var input := p.bytes[p.offset..];
    ghost var all := DecodeFields(ks, input);
    var fs: seq<Field> := [];
    var i := 0;
    assert ks[0..] == ks;
    assert all.Some? ==> [] + all.value.value == all.value.value;
    while i < |ks|
      invariant 0 <= i <= |ks|
      invariant p.Reading() && !p.errored
      invariant match DecodeFields(ks[i..], p.bytes[p.offset..])
                case None => all == None
                case Some(q) => all == Some(Parsed(fs + q.value, q.rest))
    {
      ghost var before := fs;
      DecodeStep(ks, i, p.bytes[p.offset..]);
      var f := UnmarshalField(ks[i], p);
      if f == None {
        return None;
      }
      fs := fs + [f.value];
      i := i + 1;
      ghost var tail := DecodeFields(ks[i..], p.bytes[p.offset..]);
      if tail.Some? {
        assert before + ([f.value] + tail.value.value) == fs + tail.value.value;
      }
    }
    assert fs + [] == fs;
    r := Some(fs);
  }
}
