/** State keys.  Every ledger entry lives under a key of fixed length whose first byte names its family. */
module Keys {
  import opened Words
  import opened Outcomes

  const ADDRESS_LEN: nat := 33
  const SPONSOR_PREFIX: Byte := 0x0   // storage.BalancePrefix
  const MARKET_PREFIX: Byte := 0x1
  const SHARE_PREFIX: Byte := 0x2
  const BALANCE_PREFIX: Byte := 0x3   // consts.BalancePrefix
  const BALANCE_CHUNKS: nat := 1

  type Address = s: Bytes | |s| == 33 witness seq(33, _ => 0)

  const MARKET_KEY_LEN: nat := 9
  const SHARE_KEY_LEN: nat := 43
  const BALANCE_KEY_LEN: nat := 36
  const SPONSOR_KEY_LEN: nat := 34

  /** The shares of one type that one user holds in one market. */
  datatype Holding = Holding(market: U64, owner: Address, shareType: Byte)

  /** What a state key stands for.  Foreign keys belong to no family of this repository. */
  datatype Cell =
    | Market(id: U64)
    | Shares(holding: Holding)
    | Balance(owner: Address)
    | Sponsor(owner: Address)
    | Foreign(key: Bytes)

  function MarketBytes(id: U64): (r: Bytes) {
    [MARKET_PREFIX] + Pack64(id)
  }

  function ShareBytes(h: Holding): (r: Bytes) {
    [SHARE_PREFIX] + Pack64(h.market) + h.owner + [h.shareType]
  }

  function BalanceBytes(owner: Address): (r: Bytes) {
    [BALANCE_PREFIX] + owner + BE(2, BALANCE_CHUNKS)
  }

  function SponsorBytes(owner: Address): (r: Bytes) {
    [SPONSOR_PREFIX] + owner
  }

  function Layout(c: Cell): Bytes {
    match c
    case Market(id) => MarketBytes(id)
    case Shares(h) => ShareBytes(h)
    case Balance(a) => BalanceBytes(a)
    case Sponsor(a) => SponsorBytes(a)
    case Foreign(k) => k
  }

  /** Reads a key back.  Total: whatever fits no family is foreign. */
  function Classify(k: Bytes): Cell {
    if |k| == MARKET_KEY_LEN && k[0] == MARKET_PREFIX then
      Market(Parse64(k[1..9]))
    else if |k| == SHARE_KEY_LEN && k[0] == SHARE_PREFIX then
      Shares(Holding(Parse64(k[1..9]), k[9..42], k[42]))
    else if |k| == BALANCE_KEY_LEN && k[0] == BALANCE_PREFIX && k[34..36] == BE(2, BALANCE_CHUNKS) then
      Balance(k[1..34])
    else if |k| == SPONSOR_KEY_LEN && k[0] == SPONSOR_PREFIX then
      Sponsor(k[1..34])
    else
      Foreign(k)
  }

  /** A foreign cell is one whose bytes no family claims. */
  predicate Canonical(c: Cell) {
    c.Foreign? ==> Classify(c.key) == c
  }

  /** Every key is the layout of what it stands for. */
  lemma LayoutOfClassify(k: Bytes)
    ensures Layout(Classify(k)) == k && Canonical(Classify(k))
  {
    match Classify(k)
    case Market(id) =>
      Pack64OfParse64(k[1..9]);
      assert k == [k[0]] + k[1..9];
    case Shares(h) =>
      Pack64OfParse64(k[1..9]);
      assert k == [k[0]] + k[1..9] + k[9..42] + [k[42]];
    case Balance(a) =>
      assert k == [k[0]] + k[1..34] + k[34..36];
    case Sponsor(a) =>
      assert k == [k[0]] + k[1..34];
    case Foreign(_) =>
  }

  /** Different cells never share a key, within a family or across families. */
  lemma ClassifyOfLayout(c: Cell)
    requires Canonical(c)
    ensures Classify(Layout(c)) == c
  {
    var k := Layout(c);
    match c
    case Market(id) =>
      Parse64OfPack64(id);
      assert k[1..9] == Pack64(id);
    case Shares(h) =>
      Parse64OfPack64(h.market);
      assert k[1..9] == Pack64(h.market) && k[9..42] == h.owner && k[42] == h.shareType;
    case Balance(a) =>
      assert k[1..34] == a && k[34..36] == BE(2, BALANCE_CHUNKS);
    case Sponsor(a) =>
      assert k[1..34] == a;
    case Foreign(_) =>
  }

  lemma LayoutInjective(c: Cell, d: Cell)
    requires Canonical(c) && Canonical(d) && Layout(c) == Layout(d)
    ensures c == d
  {
    ClassifyOfLayout(c);
    ClassifyOfLayout(d);
  }

  /** The 9 bytes of a market key: 1, and the ID in big-endian order. */
  lemma MarketKeyBytes(id: U64)
    ensures var k := Layout(Market(id));
            |k| == 9 && k[0] == 1 && FromBE(k[1..]) == id && k == [1] + Pack64(id)
  {
    Parse64OfPack64(id);
    assert ([1] + Pack64(id))[1..] == Pack64(id);
  }

  /** The 43 bytes of a share key: 2, the market's ID, the owner and the share type. */
  lemma ShareKeyBytes(h: Holding)
    ensures var k := Layout(Shares(h));
            && |k| == 43 && k[0] == 2 && FromBE(k[1..9]) == h.market && k[9..42] == h.owner && k[42] == h.shareType
            && k == [2] + Pack64(h.market) + h.owner + [h.shareType]
  {
    Parse64OfPack64(h.market);
    assert Layout(Shares(h))[1..9] == Pack64(h.market);
  }

  /** The 36 bytes of a balance key: 3, the owner, 0 and 1. */
  lemma BalanceKeyBytes(a: Address)
    ensures var k := Layout(Balance(a));
            |k| == 36 && k == [3] + a + [0, 1]
  {
    assert BE(2, 1) == [0, 1];
  }

  /** The 34 bytes of a sponsor key: 0 and the owner. */
  lemma SponsorKeyBytes(a: Address)
    ensures var k := Layout(Sponsor(a));
            |k| == 34 && k == [0] + a
  {
  }

  /** No ledger key is a proper prefix of another. */
  lemma PrefixFree(c: Cell, d: Cell)
    requires !c.Foreign? && !d.Foreign? && Layout(c) <= Layout(d)
    ensures c == d
  {
    assert Layout(c)[0] == Layout(d)[0];
    assert Layout(c) == Layout(d);
    LayoutInjective(c, d);
  }

  /** binary.BigEndian.PutUint64 and PutUint16 on a slice of a buffer. */
  method PutUint(buf: array<Byte>, offset: nat, width: nat, v: nat)
    requires offset + width <= buf.Length
    modifies buf
    ensures buf[..] == old(buf[..offset]) + BE(width, v) + old(buf[offset + width..])
  {
    CopyInto(buf, offset, BE(width, v));
  }

  /** Go's copy into a slice of a buffer with room for all of `src`. */
  method CopyInto(buf: array<Byte>, offset: nat, src: Bytes)
    requires offset + |src| <= buf.Length
    modifies buf
    ensures buf[..] == old(buf[..offset]) + src + old(buf[offset + |src|..])
  {
    forall i | 0 <= i < |src| {
      buf[offset + i] := src[i];
    }
  }

  method MarketKey(marketId: U64) returns (key: array<Byte>)
    ensures fresh(key) && key[..] == Layout(Market(marketId))
  {
    key := new Byte[1 + 8](_ => 0);
    key[0] := MARKET_PREFIX;
    PutUint(key, 1, 8, marketId);
    assert key[9..] == [];
  }

  method ShareBalanceKey(marketId: U64, user: Address, shareType: Byte) returns (key: array<Byte>)
    ensures fresh(key) && key[..] == Layout(Shares(Holding(marketId, user, shareType)))
  {
    key := new Byte[1 + 8 + ADDRESS_LEN + 1](_ => 0);
    key[0] := SHARE_PREFIX;
    var offset := 1;
    PutUint(key, offset, 8, marketId);
    offset := offset + 8;
    ghost var head := key[..offset];
    assert head == [SHARE_PREFIX] + Pack64(marketId);
    CopyInto(key, offset, user);
    assert key[..offset] == head;
    offset := offset + ADDRESS_LEN;
    assert key[..offset] == head + user;
    key[offset] := shareType;
    assert key[..] == key[..offset] + [shareType];
  }

  method BalanceKey(addr: Address) returns (k: array<Byte>)
    ensures fresh(k) && k[..] == Layout(Balance(addr))
  {
    k := new Byte[1 + ADDRESS_LEN + 2](_ => 0);
    k[0] := BALANCE_PREFIX;
    CopyInto(k, 1, addr);
    assert k[..1 + ADDRESS_LEN] == [BALANCE_PREFIX] + addr;
    PutUint(k, 1 + ADDRESS_LEN, 2, BALANCE_CHUNKS);
  }

  method StateKeysBalance(addr: Address) returns (key: array<Byte>)
    ensures fresh(key) && key[..] == Layout(Sponsor(addr))
  {
    key := new Byte[1 + ADDRESS_LEN](_ => 0);
    key[0] := SPONSOR_PREFIX;
    CopyInto(key, 1, addr);
  }

  /** Accepts exactly the keys StateKeysBalance builds, and gives back the address they were built from. */
  method AddressFromKey(key: Bytes) returns (r: Result<Address>)
    ensures r.Ok? <==> Classify(key).Sponsor?
    ensures r.Ok? ==> Layout(Sponsor(r.value)) == key
    ensures forall a: Address :: key == Layout(Sponsor(a)) ==> r == Ok(a)
    ensures r.Err? ==> r.error == if |key| != 1 + ADDRESS_LEN then InvalidKeyLength else InvalidPrefix
  {
    LayoutOfClassify(key);
    forall a: Address | key == Layout(Sponsor(a))
      ensures Classify(key) == Sponsor(a)
    {
      ClassifyOfLayout(Sponsor(a));
    }
    if |key| != 1 + ADDRESS_LEN {
      return Err(InvalidKeyLength);
    }
    if key[0] != SPONSOR_PREFIX {
      return Err(InvalidPrefix);
    }
    var addr := new Byte[ADDRESS_LEN](_ => 0);
    CopyInto(addr, 0, key[1..]);
    assert addr[..] == key[1..34];
    r := Ok(addr[..]);
  }
}
