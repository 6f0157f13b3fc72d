/** hypersdk's state.Mutable: a key/value store that may also refuse a read or a write. */
module State {
  import opened Words
  import opened Outcomes

  /** A store's contents, and the keys it refuses to read or to write: faults, or keys a
      transaction has no permission for. */
  datatype View = View(data: map<Bytes, Bytes>, noRead: iset<Bytes>, noWrite: iset<Bytes>) {
    function Read(k: Bytes): Result<Bytes> {
      if k in noRead then Err(StoreFault)
      else if k in data then Ok(data[k])
      else Err(NotFound)
    }

    function Write(k: Bytes, value: Bytes): Effect {
      if k in noWrite then Effect(this, Err(StoreFault))
      else Effect(this.(data := data[k := value]), Ok(Nothing))
    }
  }

  /** A call's result together with the store it leaves behind. */
  datatype Effect = Effect(view: View, result: Result<Output>)

  /** A store that never refuses anything. */
  ghost function Healthy(data: map<Bytes, Bytes>): View {
    View(data, iset{}, iset{})
  }

  class Store {
    var data: map<Bytes, Bytes>
    const noRead: iset<Bytes>
    const noWrite: iset<Bytes>

    constructor (data: map<Bytes, Bytes>, noRead: iset<Bytes>, noWrite: iset<Bytes>)
      ensures Snapshot() == View(data, noRead, noWrite)
    {
      this.data, this.noRead, this.noWrite := data, noRead, noWrite;
    }

    function Snapshot(): View
      reads this
    {
      View(data, noRead, noWrite)
    }

    method GetValue(key: Bytes) returns (r: Result<Bytes>)
      ensures r == Snapshot().Read(key)
    {
      if key in noRead {
        return Err(StoreFault);
      }
      if key in data {
        return Ok(data[key]);
      }
      r := Err(NotFound);
    }

    method Insert(key: Bytes, value: Bytes) returns (r: Result<Output>)
      modifies this
      ensures Effect(Snapshot(), r) == old(Snapshot()).Write(key, value)
    {
      if key in noWrite {
        return Err(StoreFault);
      }
      data := data[key := value];
      r := Ok(Nothing);
    }
  }
}
