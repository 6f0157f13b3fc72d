/** vm/vm.go's action parser: only BuyYes is registered, and the parser hands a decoder all of its input,
    the type byte included. */
module ActionParser {
  import opened Words
  import opened Outcomes
  import opened Codec
  import opened Orders

  /** consts.BuyYesID: the line after CreateMarketID in an iota block. */
  const BUY_YES_ID: Byte := 5

  /** TypeParser.Unmarshal with the one registered decoder. */
  function Parse(bs: Bytes): Result<Order> {
    if bs == [] then Err(EmptyAction)
    else if bs[0] != BUY_YES_ID then Err(UnexpectedTypeId)
    else match DecodeOrder(bs) case None => Err(Malformed) case Some(b) => Ok(b)
  }

  /** A big-endian number lies in the range its first byte spans. */
  lemma FirstByte(s: Bytes)
    requires s != []
    ensures s[0] * Pow256(|s| - 1) <= FromBE(s) < (s[0] + 1) * Pow256(|s| - 1)
  {
    HighByteFirst(s);
    BEOfFromBE(s[1..]);
  }

  /** An order's own bytes carry no type byte, so they come back through the parser exactly when the top byte
      of the market ID happens to be the type ID; every other order is turned away. */
  lemma ParserRoundTripIff(b: Order)
    ensures var r := Parse(EncodeFields(b.Fields()));
            r == if 5 * 0x100_0000_0000_0000 <= b.marketId < 6 * 0x100_0000_0000_0000
                 then Ok(b) else Err(UnexpectedTypeId)
  {
    OrderLayout(b);
    var bs, id := EncodeFields(b.Fields()), Pack64(b.marketId);
    assert bs[0] == id[0];
    FirstByte(id);
    Parse64OfPack64(b.marketId);
    Width7();
    DecodeOrderIff(bs, b);
  }

  lemma Width7()
    ensures Pow256(7) == 0x100_0000_0000_0000
  {
    assert Pow256(3) == 0x100_0000;
    assert Pow256(5) == 0x100_0000_0000;
  }

  /** The parser's answer to every input: an order exactly for type byte 5 in front of bytes that begin, type byte
      included, with that order's encoding; otherwise the error of the first thing that is wrong. */
  lemma ParseAnswer(bs: Bytes, b: Order)
    ensures Parse(bs) == Ok(b) <==>
            bs != [] && bs[0] == 5 && Pack64(b.marketId) + Pack64(b.amount) + Pack64(b.maxPrice) <= bs
    ensures Parse(bs).Err? <==> |bs| < 24 || bs[0] != 5
    ensures Parse(bs).Err? ==>
              Parse(bs) == Err(if bs == [] then EmptyAction else if bs[0] != 5 then UnexpectedTypeId else Malformed)
  {
    hide Pack64, Parse64;
    OrderLayout(b);
    DecodeOrderIff(bs, b);
    if |bs| >= 24 {
      var c := Order(Parse64(bs[..8]), Parse64(bs[8..16]), Parse64(bs[16..24]));
      Pack64OfParse64(bs[..8]);
      Pack64OfParse64(bs[8..16]);
      Pack64OfParse64(bs[16..24]);
      assert bs[..24] == bs[..8] + bs[8..16] + bs[16..24];
      OrderLayout(c);
      DecodeOrderIff(bs, c);
    }
    if DecodeOrder(bs).Some? {
      OrderLayout(DecodeOrder(bs).value);
      DecodeOrderIff(bs, DecodeOrder(bs).value);
    }
  }
}
