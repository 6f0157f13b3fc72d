/** storage/market.go: market records and share balances. */
module MarketStorage {
  import opened Words
  import opened Outcomes
  import opened Packers
  import opened Codec
  import opened Keys
  import opened State
  import opened Storage

  const MAX_MARKET_DATA_SIZE: nat := 1024

  const STATUS_OPEN: Byte := 0
  const STATUS_TRADING_CLOSED: Byte := 1
  const STATUS_RESOLVED_YES: Byte := 2
  const STATUS_RESOLVED_NO: Byte := 3
  const OUTCOME_PENDING: Byte := 0

  /** A market.  Status and outcome are uint8 in the record, so any byte can be decoded. */
  datatype Record = Record(
    id: U64,
    description: Bytes,
    status: Byte,
    creator: Address,
    endTime: I64,
    resolutionTime: I64,
    totalYes: U64,
    totalNo: U64,
    oracleType: Byte,
    oracleSource: Bytes,
    oracleParameters: Bytes,
    resolvedOutcome: Byte)
  {
    /** The serialized fields in declaration order. */
    function Fields(): (fs: seq<Field>)
      ensures |fs| == 12
    {
      [ FLong(id), FString(description), FByte(status), FArray(creator),
        FLong(ToBits(endTime)), FLong(ToBits(resolutionTime)), FLong(totalYes), FLong(totalNo),
        FByte(oracleType), FString(oracleSource), FSlice(oracleParameters), FByte(resolvedOutcome) ]
    }

    function Encode(): Bytes {
      EncodeFields(Fields())
    }

    /** The part of the encoding whose length varies. */
    function TextLength(): nat {
      |description| + |oracleSource| + |oracleParameters|
    }

    /** Whether SetMarket accepts the record. */
    predicate Storable() {
      |Encode()| <= MAX_MARKET_DATA_SIZE
    }
  }

  const RECORD_KINDS: seq<Kind> :=
    [ KLong, KString, KByte, KArray(33), KLong, KLong, KLong, KLong, KByte, KString, KSlice, KByte ]

  function FromFields(fs: seq<Field>): Record
    requires OfKinds(fs, RECORD_KINDS)
  {
    Record(fs[0].v, fs[1].s, fs[2].b, fs[3].s, FromBits(fs[4].v), FromBits(fs[5].v),
           fs[6].v, fs[7].v, fs[8].b, fs[9].s, fs[10].s, fs[11].b)
  }

  /** What GetMarket makes of stored bytes. */
  function Decode(bs: Bytes): Option<Record> {
    match DecodeFields(RECORD_KINDS, bs)
    case None => None
    case Some(p) => FieldsCanonical(RECORD_KINDS, bs); Some(FromFields(p.value))
  }

  lemma FieldsOfRecord(m: Record)
    ensures OfKinds(m.Fields(), RECORD_KINDS) && FromFields(m.Fields()) == m
  {
  }

  lemma RecordOfFields(fs: seq<Field>)
    requires OfKinds(fs, RECORD_KINDS)
    ensures FromFields(fs).Fields() == fs
  {
  }

  /** The record's bytes in full: its fields in declaration order, times in two's complement, the lengths of the two
      texts in two bytes and that of the oracle parameters in four. */
  lemma RecordLayout(m: Record)
    ensures m.Encode() == Joined(
      [ Pack64(m.id), BE(2, |m.description|) + m.description, [m.status], m.creator,
        Pack64(if m.endTime < 0 then m.endTime + 0x1_0000_0000_0000_0000 else m.endTime),
        Pack64(if m.resolutionTime < 0 then m.resolutionTime + 0x1_0000_0000_0000_0000 else m.resolutionTime),
        Pack64(m.totalYes), Pack64(m.totalNo), [m.oracleType], BE(2, |m.oracleSource|) + m.oracleSource,
        BE(4, |m.oracleParameters|) + m.oracleParameters, [m.resolvedOutcome] ])
  {
    hide Pack64, BE, Joined, EncodeFields;
    var parts :=
      [ Pack64(m.id), BE(2, |m.description|) + m.description, [m.status], m.creator,
        Pack64(ToBits(m.endTime)), Pack64(ToBits(m.resolutionTime)),
        Pack64(m.totalYes), Pack64(m.totalNo), [m.oracleType], BE(2, |m.oracleSource|) + m.oracleSource,
        BE(4, |m.oracleParameters|) + m.oracleParameters, [m.resolvedOutcome] ];
    EncodeFieldsJoins(m.Fields(), parts);
  }

  /** The length prefixes can hold the record's three variable fields. */
  lemma RecordEncodableIff(m: Record)
    ensures Encodable(m.Fields()) <==>
            |m.description| < 0x1_0000 && |m.oracleSource| < 0x1_0000 && |m.oracleParameters| < 0x8000_0000
  {
    var fs := m.Fields();
    assert fs[1].s == m.description && fs[9].s == m.oracleSource && fs[10].s == m.oracleParameters;
  }

  /** 84 bytes of fixed-size fields and length prefixes, plus the three variable parts. */
  lemma EncodedLength(m: Record)
    ensures |m.Encode()| == 84 + m.TextLength()
  {
    var fs := m.Fields();
    assert fs[0..] == fs && fs[12..] == [];
    EncodeStep(fs, 0); EncodeStep(fs, 1); EncodeStep(fs, 2); EncodeStep(fs, 3);
    EncodeStep(fs, 4); EncodeStep(fs, 5); EncodeStep(fs, 6); EncodeStep(fs, 7);
    EncodeStep(fs, 8); EncodeStep(fs, 9); EncodeStep(fs, 10); EncodeStep(fs, 11);
  }

  /** A market can be stored exactly when its three texts sum to at most 940 bytes. */
  lemma StorableIff(m: Record)
    ensures m.Storable() <==> m.TextLength() <= 940
  {
    EncodedLength(m);
  }

  lemma StorableEncodable(m: Record)
    requires m.Storable()
    ensures Encodable(m.Fields())
  {
    EncodedLength(m);
  }

  /** Decoding inverts encoding, and the accepted inputs are exactly the encodings and their extensions. */
  lemma DecodeIff(bs: Bytes, m: Record)
    ensures Decode(bs) == Some(m) <==> Encodable(m.Fields()) && m.Encode() <= bs
  {
    FieldsOfRecord(m);
    if Decode(bs) == Some(m) {
      FieldsCanonical(RECORD_KINDS, bs);
      RecordOfFields(DecodeFields(RECORD_KINDS, bs).value.value);
    }
    if Encodable(m.Fields()) && m.Encode() <= bs {
      var rest := bs[|m.Encode()|..];
      assert bs == m.Encode() + rest;
      FieldsRoundTrip(RECORD_KINDS, m.Fields(), rest);
    }
  }

  lemma DecodeOfEncode(m: Record)
    requires m.Storable()
    ensures Decode(m.Encode()) == Some(m)
  {
    StorableEncodable(m);
    DecodeIff(m.Encode(), m);
  }

  function LoadMarket(v: View, id: U64): Result<Record> {
    match v.Read(Layout(Market(id)))
    case Err(e) => Err(e)
    case Ok(bs) =>
      match Decode(bs)
      case None => Err(Malformed)
      case Some(m) => Ok(m)
  }

  /** The record goes under its own ID, whatever ID it was fetched under. */
  function StoreMarket(v: View, m: Record): Effect {
    if m.Storable() then v.Write(Layout(Market(m.id)), m.Encode()) else Effect(v, Err(TooLarge))
  }

  lemma NothingDecodesToEmpty()
    ensures Decode([]) == None
  {
    assert DecodeField(RECORD_KINDS[0], []) == None;
  }

  method GetMarket(im: Store, marketId: U64) returns (r: Result<Record>)
    ensures r == LoadMarket(im.Snapshot(), marketId)
  {
    NothingDecodesToEmpty();
    var key := MarketKey(marketId);
    var val := im.GetValue(key[..]);
    if val.Err? {
      return Err(val.error);
    }
    if |val.value| == 0 {
      return Err(Malformed);
    }
    var reader := new Packer.Reader(val.value, MAX_MARKET_DATA_SIZE);
    assert reader.bytes[reader.offset..] == val.value;
    var fs := UnmarshalFrom(RECORD_KINDS, reader);
    if fs == None {
      return Err(Malformed);
    }
    FieldsCanonical(RECORD_KINDS, val.value);
    r := Ok(FromFields(fs.value));
  }

  method SetMarket(mu: Store, market: Record) returns (r: Result<Output>)
    modifies mu
    ensures Effect(mu.Snapshot(), r) == StoreMarket(old(mu.Snapshot()), market)
  {
    EncodedLength(market);
    var key := MarketKey(market.id);
    var writer := new Packer.Writer(MAX_MARKET_DATA_SIZE);
    var ok := MarshalInto(market.Fields(), writer);
    if !ok || writer.errored {
      return Err(TooLarge);
    }
    assert [] + market.Encode() == market.Encode();
    r := mu.Insert(key[..], writer.bytes);
  }

  method GetShareBalance(im: Store, marketId: U64, user: Address, shareType: Byte) returns (r: Result<U64>)
    ensures r == LoadAmount(im.Snapshot(), Layout(Shares(Holding(marketId, user, shareType))))
  {
    var key := ShareBalanceKey(marketId, user, shareType);
    r := ReadAmount(im, key[..]);
  }

  method SetShareBalance(mu: Store, marketId: U64, user: Address, shareType: Byte, amount: U64)
    returns (r: Result<Output>)
    modifies mu
    ensures Effect(mu.Snapshot(), r)
         == StoreAmount(old(mu.Snapshot()), Layout(Shares(Holding(marketId, user, shareType))), amount)
  {
    var key := ShareBalanceKey(marketId, user, shareType);
    r := WriteAmount(mu, key[..], amount);
  }

  method AddShares(mu: Store, marketId: U64, user: Address, shareType: Byte, amountToAdd: U64)
    returns (r: Result<Output>)
    modifies mu
    ensures Effect(mu.Snapshot(), r)
         == Raise(old(mu.Snapshot()), Layout(Shares(Holding(marketId, user, shareType))), amountToAdd)
  {
    var current := GetShareBalance(mu, marketId, user, shareType);
    if current.Err? {
      return Err(current.error);
    }
    var newShares := Wrap(current.value + amountToAdd);
    r := SetShareBalance(mu, marketId, user, shareType, newShares);
  }

  method DeductShares(mu: Store, marketId: U64, user: Address, shareType: Byte, amountToDeduct: U64)
    returns (r: Result<Output>)
    modifies mu
    ensures Effect(mu.Snapshot(), r)
         == Debit(old(mu.Snapshot()), Layout(Shares(Holding(marketId, user, shareType))), amountToDeduct,
                  InsufficientShares)
  {
    var current := GetShareBalance(mu, marketId, user, shareType);
    if current.Err? {
      return Err(current.error);
    }
    if current.value < amountToDeduct {
      return Err(InsufficientShares);
    }
    var newShares := current.value - amountToDeduct;
    r := SetShareBalance(mu, marketId, user, shareType, newShares);
  }
}
