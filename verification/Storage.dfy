/** storage/state.go and storage/storage.go: 8-byte amounts, native balances and the fee ledger. */
module Storage {
  import opened Words
  import opened Outcomes
  import opened Packers
  import opened Keys
  import opened State

  /** GetBalance and GetShareBalance read alike: no entry or an empty entry counts as zero, bytes after
      the eighth are ignored, and a stored zero is an error because the packer insists on a value. */
  function LoadAmount(v: View, k: Bytes): Result<U64> {
    match v.Read(k)
    case Err(e) => if e == NotFound then Ok(0) else Err(e)
    case Ok(bs) =>
      if bs == [] then Ok(0)
      else if |bs| < 8 || Parse64(bs[..8]) == 0 then Err(Malformed)
      else Ok(Parse64(bs[..8]))
  }

  function StoreAmount(v: View, k: Bytes, x: U64): Effect {
    v.Write(k, Pack64(x))
  }

  /** database.ParseUInt64: exactly eight bytes, zero included. */
  function ParseAmount(bs: Bytes): Result<U64> {
    if |bs| == 8 then Ok(Parse64(bs)) else Err(Malformed)
  }

  method ReadAmount(im: Store, key: Bytes) returns (r: Result<U64>)
    ensures r == LoadAmount(im.Snapshot(), key)
  {
    var val := im.GetValue(key);
    if val == Err(NotFound) {
      return Ok(0);
    }
    if val.Err? {
      return Err(val.error);
    }
    if |val.value| == 0 {
      return Ok(0);
    }
    var reader := new Packer.Reader(val.value, |val.value|);
    var amount := reader.UnpackUint64Required();
    assert |val.value| >= 8 ==> val.value[0..8] == val.value[..8];
    if reader.errored {
      return Err(Malformed);
    }
    r := Ok(amount);
  }

  method WriteAmount(mu: Store, key: Bytes, amount: U64) returns (r: Result<Output>)
    modifies mu
    ensures Effect(mu.Snapshot(), r) == StoreAmount(old(mu.Snapshot()), key, amount)
  {
    var writer := new Packer.Writer(8);
    writer.PackUint(8, amount);
    if writer.errored {
      return Err(TooLarge);
    }
    assert writer.bytes == Pack64(amount);
    r := mu.Insert(key, writer.bytes);
  }

  method GetBalance(im: Store, addr: Address) returns (r: Result<U64>)
    ensures r == LoadAmount(im.Snapshot(), Layout(Balance(addr)))
  {
    var key := BalanceKey(addr);
    r := ReadAmount(im, key[..]);
  }

  method SetBalance(mu: Store, addr: Address, amount: U64) returns (r: Result<Output>)
    modifies mu
    ensures Effect(mu.Snapshot(), r) == StoreAmount(old(mu.Snapshot()), Layout(Balance(addr)), amount)
  {
    var key := BalanceKey(addr);
    r := WriteAmount(mu, key[..], amount);
  }

  /** Takes `amount` off the entry under `k`, refusing with `short` when there is less. */
  function Debit(v: View, k: Bytes, amount: U64, short: Error): Effect {
    match LoadAmount(v, k)
    case Err(e) => Effect(v, Err(e))
    case Ok(current) =>
      if current < amount then Effect(v, Err(short)) else StoreAmount(v, k, current - amount)
  }

  /** Adds `amount` to the entry under `k`, modulo 2^64. */
  function Raise(v: View, k: Bytes, amount: U64): Effect {
    match LoadAmount(v, k)
    case Err(e) => Effect(v, Err(e))
    case Ok(current) => StoreAmount(v, k, Wrap(current + amount))
  }

  method DeductBalance(mu: Store, addr: Address, amount: U64) returns (r: Result<Output>)
    modifies mu
    ensures Effect(mu.Snapshot(), r)
         == Debit(old(mu.Snapshot()), Layout(Balance(addr)), amount, InsufficientBalance)
  {
    var current := GetBalance(mu, addr);
    if current.Err? {
      return Err(current.error);
    }
    if current.value < amount {
      return Err(InsufficientBalance);
    }
    var newBalance := current.value - amount;
    r := SetBalance(mu, addr, newBalance);
  }

  method AddBalance(mu: Store, addr: Address, amount: U64) returns (r: Result<Output>)
    modifies mu
    ensures Effect(mu.Snapshot(), r) == Raise(old(mu.Snapshot()), Layout(Balance(addr)), amount)
  {
    var current := GetBalance(mu, addr);
    if current.Err? {
      return Err(current.error);
    }
    var newBalance := Wrap(current.value + amount);
    r := SetBalance(mu, addr, newBalance);
  }

  /** innerGetBalance on a read of the sponsor key, which is where the RPC balance query looks. */
  function QueriedBalance(v: View, addr: Address): Result<U64> {
    match v.Read(Layout(Sponsor(addr)))
    case Err(e) => if e == NotFound then Ok(0) else Err(e)
    case Ok(bs) => ParseAmount(bs)
  }

  method GetBalanceFromState(im: Store, addr: Address) returns (r: Result<U64>)
    ensures r == QueriedBalance(im.Snapshot(), addr)
  {
    var k := StateKeysBalance(addr);
    var value := im.GetValue(k[..]);
    if value == Err(NotFound) {
      return Ok(0);
    }
    if value.Err? {
      return Err(value.error);
    }
    r := ParseAmount(value.value);
  }
}
