/** The two-wire serial (I2C) bus the driver is generic over, seen only
    through the two operations the driver calls: a plain write and a
    combined write-then-read. The bus itself is not modelled: what it
    answers is fixed in advance by an oracle, the k-th transaction issued on
    a bus (counted from its creation) receiving oracle(k), and every
    transaction is appended to a log so that the frames the driver sends
    can be stated exactly. */
module I2c {

  /** The transport's own error value (NACK, timeout, arbitration loss, ...);
      the driver never looks inside it. */
  type BusError

  datatype Transaction =
    | Write(address: bv8, bytes: seq<bv8>)
    | WriteRead(address: bv8, request: seq<bv8>)

  /** The bus's answer to one transaction: success, carrying the bytes the
      device clocks back (used only by a write-read), or failure. */
  datatype Reply = Ack(response: seq<bv8>) | Nack(error: BusError)

  datatype BusResult = Done | Failed(error: BusError)

  function ResultOf(reply: Reply): BusResult
  {
    if reply.Nack? then Failed(reply.error) else Done
  }

  /** The replies the oracle gives to n consecutive transactions starting
      with the one numbered `from`. */
  function Replies(oracle: nat -> Reply, from: nat, n: nat): seq<Reply>
  {
    seq(n, j requires 0 <= j => oracle(from + j))
  }

  /** A read buffer after a successful write-read: the response bytes
      overwrite it from the front, as far as both reach. */
  function Filled(buffer: seq<bv8>, response: seq<bv8>): seq<bv8>
  {
    seq(|buffer|, i requires 0 <= i < |buffer| => if i < |response| then response[i] else buffer[i])
  }

  class Bus {
    const oracle: nat -> Reply
    var log: seq<Transaction>

    constructor (oracle: nat -> Reply)
      ensures this.oracle == oracle && log == []
    {
      this.oracle := oracle;
      log := [];
    }

    method Write(address: bv8, bytes: seq<bv8>) returns (r: BusResult)
      modifies this
      ensures log == old(log) + [Transaction.Write(address, bytes)]
      ensures r == ResultOf(oracle(|old(log)|))
    {
      r := ResultOf(oracle(|log|));
      log := log + [Transaction.Write(address, bytes)];
    }

    method WriteRead(address: bv8, request: seq<bv8>, buffer: array<bv8>) returns (r: BusResult)
      modifies this, buffer
      ensures log == old(log) + [Transaction.WriteRead(address, request)]
      ensures r == ResultOf(oracle(|old(log)|))
      ensures buffer[..] == if r.Done? then Filled(old(buffer[..]), oracle(|old(log)|).response)
                            else old(buffer[..])
    {
      var reply := oracle(|log|);
      r := ResultOf(reply);
      log := log + [Transaction.WriteRead(address, request)];
      if reply.Ack? {
        forall i | 0 <= i < buffer.Length && i < |reply.response| {
          buffer[i] := reply.response[i];
        }
      }
    }
  }
}
