/** actions/create_market_action.go. */
module CreateMarkets {
  import opened Words
  import opened Outcomes
  import opened Packers
  import opened Codec
  import opened Keys
  import opened State
  import opened MarketStorage

  /** consts.CreateMarketID is iota at the fifth line of its block, which is 4. */
  const CREATE_MARKET_ID: Byte := 4
  const MAX_CREATE_MARKET_SIZE: nat := 1024
  const MAX_DESCRIPTION: nat := 256
  const MAX_ORACLE_SOURCE: nat := 256
  const MAX_ORACLE_PARAMETERS: nat := 512

  /** An ids.ID: 32 bytes, drawn at random by the source and an input here. */
  type Draw = s: Bytes | |s| == 32 witness seq(32, _ => 0)

  datatype Proposal = Proposal(
    description: Bytes,
    endTime: I64,
    resolutionTime: I64,
    oracleType: Byte,
    oracleSource: Bytes,
    oracleParameters: Bytes)
  {
    function Fields(): (fs: seq<Field>)
      ensures |fs| == 6
    {
      [ FString(description), FLong(ToBits(endTime)), FLong(ToBits(resolutionTime)),
        FByte(oracleType), FString(oracleSource), FSlice(oracleParameters) ]
    }

    function TextLength(): nat {
      |description| + |oracleSource| + |oracleParameters|
    }
  }

  const PROPOSAL_KINDS: seq<Kind> := [KString, KLong, KLong, KByte, KString, KSlice]

  function FromFields(fs: seq<Field>): Proposal
    requires OfKinds(fs, PROPOSAL_KINDS)
  {
    Proposal(fs[0].s, FromBits(fs[1].v), FromBits(fs[2].v), fs[3].b, fs[4].s, fs[5].s)
  }

  /** The action's type byte and then its fields. */
  function EncodeProposal(cm: Proposal): Bytes {
    [CREATE_MARKET_ID] + EncodeFields(cm.Fields())
  }

  function DecodeBody(bs: Bytes): Option<Proposal> {
    match DecodeFields(PROPOSAL_KINDS, bs)
    case None => None
    case Some(p) => FieldsCanonical(PROPOSAL_KINDS, bs); Some(FromFields(p.value))
  }

  function DecodeProposal(bs: Bytes): Result<Proposal> {
    if bs == [] then Err(EmptyAction)
    else if bs[0] != CREATE_MARKET_ID then Err(UnexpectedTypeId)
    else
      match DecodeBody(bs[1..])
      case None => Err(Malformed)
      case Some(cm) => Ok(cm)
  }

  lemma FieldsOfProposal(cm: Proposal)
    ensures OfKinds(cm.Fields(), PROPOSAL_KINDS) && FromFields(cm.Fields()) == cm
  {
  }

  lemma ProposalOfFields(fs: seq<Field>)
    requires OfKinds(fs, PROPOSAL_KINDS)
    ensures FromFields(fs).Fields() == fs
  {
  }

  /** The action's bytes in full: type 4, and then the fields in declaration order. */
  lemma ProposalLayout(cm: Proposal)
    ensures EncodeProposal(cm) == [4] + Joined(
      [ BE(2, |cm.description|) + cm.description,
        Pack64(if cm.endTime < 0 then cm.endTime + 0x1_0000_0000_0000_0000 else cm.endTime),
        Pack64(if cm.resolutionTime < 0 then cm.resolutionTime + 0x1_0000_0000_0000_0000 else cm.resolutionTime),
        [cm.oracleType], BE(2, |cm.oracleSource|) + cm.oracleSource,
        BE(4, |cm.oracleParameters|) + cm.oracleParameters ])
  {
    hide Pack64, BE, Joined, EncodeFields;
    var parts :=
      [ BE(2, |cm.description|) + cm.description, Pack64(ToBits(cm.endTime)), Pack64(ToBits(cm.resolutionTime)),
        [cm.oracleType], BE(2, |cm.oracleSource|) + cm.oracleSource,
        BE(4, |cm.oracleParameters|) + cm.oracleParameters ];
    EncodeFieldsJoins(cm.Fields(), parts);
  }

  lemma ProposalEncodableIff(cm: Proposal)
    ensures Encodable(cm.Fields()) <==>
            |cm.description| < 0x1_0000 && |cm.oracleSource| < 0x1_0000 && |cm.oracleParameters| < 0x8000_0000
  {
    var fs := cm.Fields();
    assert fs[0].s == cm.description && fs[4].s == cm.oracleSource && fs[5].s == cm.oracleParameters;
  }

  lemma ProposalLength(cm: Proposal)
    ensures |EncodeProposal(cm)| == 26 + cm.TextLength()
  {
    var fs := cm.Fields();
    assert fs[0..] == fs && fs[6..] == [];
    EncodeStep(fs, 0); EncodeStep(fs, 1); EncodeStep(fs, 2);
    EncodeStep(fs, 3); EncodeStep(fs, 4); EncodeStep(fs, 5);
  }

  lemma DecodeBodyIff(bs: Bytes, cm: Proposal)
    ensures DecodeBody(bs) == Some(cm) <==> Encodable(cm.Fields()) && EncodeFields(cm.Fields()) <= bs
  {
    FieldsOfProposal(cm);
    if DecodeBody(bs) == Some(cm) {
      FieldsCanonical(PROPOSAL_KINDS, bs);
      ProposalOfFields(DecodeFields(PROPOSAL_KINDS, bs).value.value);
    }
    if Encodable(cm.Fields()) && EncodeFields(cm.Fields()) <= bs {
      var rest := bs[|EncodeFields(cm.Fields())|..];
      assert bs == EncodeFields(cm.Fields()) + rest;
      FieldsRoundTrip(PROPOSAL_KINDS, cm.Fields(), rest);
    }
  }

  /** UnmarshalCreateMarket gives back a proposal exactly from that proposal's bytes and their extensions. */
  lemma DecodeProposalIff(bs: Bytes, cm: Proposal)
    ensures DecodeProposal(bs) == Ok(cm) <==> Encodable(cm.Fields()) && EncodeProposal(cm) <= bs
  {
    if bs != [] {
      DecodeBodyIff(bs[1..], cm);
      assert bs == [bs[0]] + bs[1..];
    }
  }

  /** What is turned away, and how: nothing at all, another action's type, and a type byte 4 with a body that does
      not begin with any proposal. */
  lemma ProposalRefused(bs: Bytes)
    ensures DecodeProposal(bs).Err? ==>
              DecodeProposal(bs) == Err(if bs == [] then EmptyAction else if bs[0] != 4 then UnexpectedTypeId
                                        else Malformed)
    ensures DecodeProposal(bs).Ok? <==> exists cm: Proposal :: Encodable(cm.Fields()) && EncodeProposal(cm) <= bs
  {
    if DecodeProposal(bs).Ok? {
      DecodeProposalIff(bs, DecodeProposal(bs).value);
    }
    forall cm: Proposal | Encodable(cm.Fields()) && EncodeProposal(cm) <= bs
      ensures DecodeProposal(bs) == Ok(cm)
    {
      DecodeProposalIff(bs, cm);
    }
  }

  /** The input checks, in the source's order. */
  function Validate(cm: Proposal, timestamp: I64): Option<Error> {
    if |cm.description| == 0 then Some(DescriptionEmpty)
    else if |cm.description| > MAX_DESCRIPTION then Some(DescriptionTooLong)
    else if |cm.oracleSource| > MAX_ORACLE_SOURCE then Some(OracleSourceTooLong)
    else if |cm.oracleParameters| > MAX_ORACLE_PARAMETERS then Some(OracleParametersTooLong)
    else if cm.endTime <= timestamp then Some(EndTimeInPast)
    else if cm.resolutionTime <= cm.endTime then Some(ResolutionTimeBeforeEndTime)
    else None
  }

  /** A market ID is the first eight bytes of the draw. */
  function IdOf(draw: Draw): U64 {
    Parse64(draw[..8])
  }

  function NewRecord(cm: Proposal, id: U64, creator: Address): Record {
    Record(id, cm.description, STATUS_OPEN, creator, cm.endTime, cm.resolutionTime, 0, 0,
           cm.oracleType, cm.oracleSource, cm.oracleParameters, OUTCOME_PENDING)
  }

  function Create(v: View, cm: Proposal, draw: Option<Draw>, creator: Address, timestamp: I64): Effect {
    match Validate(cm, timestamp)
    case Some(e) => Effect(v, Err(e))
    case None =>
      if draw == None then Effect(v, Err(NoEntropy))
      else
        var id := IdOf(draw.value);
        var stored := StoreMarket(v, NewRecord(cm, id, creator));
        if stored.result.Err? then stored else stored.(result := Ok(Created(id)))
  }

  /** The keys the action declares: the sponsor balance key, and a bare market prefix. */
  function StateKeys(creator: Address): set<Bytes> {
    { Layout(Sponsor(creator)), [MARKET_PREFIX] }
  }

  method Execute(cm: Proposal, mu: Store, timestamp: I64, actor: Address, draw: Option<Draw>)
    returns (r: Result<Output>)
    modifies mu
    ensures Effect(mu.Snapshot(), r) == Create(old(mu.Snapshot()), cm, draw, actor, timestamp)
  {
    if |cm.description| == 0 {
      return Err(DescriptionEmpty);
    }
    if |cm.description| > 256 {
      return Err(DescriptionTooLong);
    }
    if |cm.oracleSource| > 256 {
      return Err(OracleSourceTooLong);
    }
    if |cm.oracleParameters| > 512 {
      return Err(OracleParametersTooLong);
    }
    if cm.endTime <= timestamp {
      return Err(EndTimeInPast);
    }
    if cm.resolutionTime <= cm.endTime {
      return Err(ResolutionTimeBeforeEndTime);
    }
    if draw == None {
      return Err(NoEntropy);
    }
    var marketId := Parse64(draw.value[..8]);
    var market := Record(marketId, cm.description, STATUS_OPEN, actor, cm.endTime, cm.resolutionTime, 0, 0,
                         cm.oracleType, cm.oracleSource, cm.oracleParameters, OUTCOME_PENDING);
    r := SetMarket(mu, market);
    if r.Ok? {
      r := Ok(Created(marketId));
    }
  }

  /** Bytes: panics, here None, exactly when the three texts sum to more than 998 bytes. */
  method Marshal(cm: Proposal) returns (r: Option<Bytes>)
    ensures r == if cm.TextLength() <= 998 then Some(EncodeProposal(cm)) else None
  {
    ProposalLength(cm);
    var p := new Packer.Writer(MAX_CREATE_MARKET_SIZE);
    p.PackByte(CREATE_MARKET_ID);
    assert p.bytes == [CREATE_MARKET_ID];
    var ok := MarshalInto(cm.Fields(), p);
    r := if ok then Some(p.bytes) else None;
  }

  method Unmarshal(bytes: Bytes) returns (r: Result<Proposal>)
    ensures r == DecodeProposal(bytes)
  {
    if |bytes| == 0 {
      return Err(EmptyAction);
    }
    if bytes[0] != CREATE_MARKET_ID {
      return Err(UnexpectedTypeId);
    }
    var p := new Packer.Reader(bytes[1..], 0);
    assert p.bytes[p.offset..] == bytes[1..];
    var fs := UnmarshalFrom(PROPOSAL_KINDS, p);
    if fs == None {
      return Err(Malformed);
    }
    FieldsCanonical(PROPOSAL_KINDS, bytes[1..]);
    r := Ok(FromFields(fs.value));
  }

  /** A proposal is valid exactly within these limits. */
  lemma ValidIff(cm: Proposal, t: I64)
    ensures Validate(cm, t) == None <==>
              && 0 < |cm.description| <= 256 && |cm.oracleSource| <= 256 && |cm.oracleParameters| <= 512
              && t < cm.endTime < cm.resolutionTime
  {
  }

  /** The market's ID is what the first eight bytes of the draw read in big-endian order, and its key is 1 and those
      bytes themselves. */
  lemma DrawnKey(draw: Draw)
    ensures IdOf(draw) == FromBE(draw[..8])
    ensures Layout(Market(IdOf(draw))) == [1] + draw[..8]
  {
    Pack64OfParse64(draw[..8]);
    MarketKeyBytes(IdOf(draw));
  }

  /** A creation succeeds exactly on a proposal within the limits and of at most 940 bytes of text, given a draw and
      leave to write the market's key.  Whether the ID is already taken plays no part. */
  lemma CreateSucceedsIff(v: View, cm: Proposal, draw: Option<Draw>, creator: Address, t: I64)
    ensures Create(v, cm, draw, creator, t).result.Ok? <==>
              && 0 < |cm.description| <= 256 && |cm.oracleSource| <= 256 && |cm.oracleParameters| <= 512
              && t < cm.endTime < cm.resolutionTime
              && |cm.description| + |cm.oracleSource| + |cm.oracleParameters| <= 940
              && draw.Some? && [1] + draw.value[..8] !in v.noWrite
  {
    hide Layout, Record.Encode;
    if draw.Some? {
      StorableIff(NewRecord(cm, IdOf(draw.value), creator));
      DrawnKey(draw.value);
    }
  }

  /** The answer of every creation on every store: the first check that fails decides. */
  lemma CreateAnswer(v: View, cm: Proposal, draw: Option<Draw>, creator: Address, t: I64)
    ensures Create(v, cm, draw, creator, t).result ==
            if |cm.description| == 0 then Err(DescriptionEmpty)
            else if |cm.description| > 256 then Err(DescriptionTooLong)
            else if |cm.oracleSource| > 256 then Err(OracleSourceTooLong)
            else if |cm.oracleParameters| > 512 then Err(OracleParametersTooLong)
            else if t >= cm.endTime then Err(EndTimeInPast)
            else if cm.endTime >= cm.resolutionTime then Err(ResolutionTimeBeforeEndTime)
            else if draw == None then Err(NoEntropy)
            else if |cm.description| + |cm.oracleSource| + |cm.oracleParameters| > 940 then Err(TooLarge)
            else if [1] + draw.value[..8] in v.noWrite then Err(StoreFault)
            else Ok(Created(Parse64(draw.value[..8])))
    ensures Create(v, cm, draw, creator, t).result.Err? ==> Create(v, cm, draw, creator, t).view == v
  {
    hide Layout, Record.Encode, Parse64;
    if draw.Some? {
      StorableIff(NewRecord(cm, IdOf(draw.value), creator));
      DrawnKey(draw.value);
    }
  }

  /** It declares two keys: the creator's sponsor key, and the lone byte 1. */
  lemma CreateDeclares(creator: Address)
    ensures StateKeys(creator) == { [0] + creator, [1] }
  {
    SponsorKeyBytes(creator);
  }

  /** The action's own length limits do not add up to that bound: this proposal meets all of them. */
  lemma LimitsAllowTooLarge(v: View, draw: Draw, creator: Address, t: I64) returns (cm: Proposal)
    requires t < TWO_63 - 2
    ensures 0 < |cm.description| <= 256 && |cm.oracleSource| <= 256 && |cm.oracleParameters| <= 512
    ensures t < cm.endTime < cm.resolutionTime
    ensures Create(v, cm, Some(draw), creator, t) == Effect(v, Err(TooLarge))
  {
    cm := Proposal(seq(256, _ => 0), t + 1, t + 2, 0, seq(256, _ => 0), seq(512, _ => 0));
    StorableIff(NewRecord(cm, IdOf(draw), creator));
  }

  /** Every proposal that Execute accepts survives its own Bytes and UnmarshalCreateMarket. */
  lemma AcceptedRoundTrips(v: View, cm: Proposal, draw: Option<Draw>, creator: Address, t: I64)
    requires Create(v, cm, draw, creator, t).result.Ok?
    ensures cm.TextLength() <= 940
    ensures DecodeProposal(EncodeProposal(cm)) == Ok(cm)
  {
    StorableIff(NewRecord(cm, IdOf(draw.value), creator));
    DecodeProposalIff(EncodeProposal(cm), cm);
  }
}
