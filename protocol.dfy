/** The wire protocol of the VEML6075: its bus address, its register
    addresses, the frames the driver sends, the little-endian decoding of a
    data register, and what `read_register` and `read_all` yield for the
    bus's replies. */
module Protocol {
  import opened I2c
  import opened Results

  /** 7-bit bus address of the sensor. */
  const DEVICE_ADDRESS: bv8 := 0x10

  // Register addresses.
  const CONFIG: bv8 := 0x00
  const UVA: bv8 := 0x07
  const UVB: bv8 := 0x09
  const UVCOMP1: bv8 := 0x0A
  const UVCOMP2: bv8 := 0x0B
  const DEVICE_ID: bv8 := 0x0C

  /** The write of `value` to the configuration register: the register
      address, the value and a padding zero. */
  function ConfigFrame(value: bv8): Transaction
  {
    Transaction.Write(DEVICE_ADDRESS, [CONFIG, value, 0])
  }

  /** The write-read that fetches one data register. */
  function ReadFrame(register: bv8): Transaction
  {
    Transaction.WriteRead(DEVICE_ADDRESS, [register])
  }

  /** The write-reads of `read_all`, in the order it issues them. */
  const CHANNEL_FRAMES: seq<Transaction> := [ReadFrame(UVA), ReadFrame(UVB), ReadFrame(UVCOMP1), ReadFrame(UVCOMP2)]

  /** The 16-bit value of the two bytes a data register returns, low byte
      first: `high` is its upper byte and `low` its lower one. Computed in
      16-bit arithmetic, which cannot overflow here (255 * 256 + 255 is
      0xFFFF). */
  function Decode(low: bv8, high: bv8): (v: bv16)
    ensures v >> 8 == high as bv16 && v & 0xFF == low as bv16
    ensures v == (high as bv16) * 256 + low as bv16
  {
    ((high as bv16) << 8) | (low as bv16)
  }

  /** The two bytes, low byte first, in which the device sends `v`. */
  function Encode(v: bv16): (bv8, bv8)
  {
    ((v & 0xFF) as bv8, (v >> 8) as bv8)
  }

  lemma DecodeEncode(v: bv16)
    ensures Decode(Encode(v).0, Encode(v).1) == v
  {
  }

  lemma EncodeDecode(low: bv8, high: bv8)
    ensures Encode(Decode(low, high)) == (low, high)
  {
  }

  /** What `read_register` yields for the bus's reply to its write-read:
      the wrapped bus error, or the decoding of its two-byte buffer, which
      starts as zeros and is overwritten by the response. */
  function RegisterResult(reply: Reply): (r: Result<bv16>)
    ensures r.Err? <==> reply.Nack?
    ensures reply.Nack? ==> r.error == I2C(reply.error)
    ensures reply.Ack? && |reply.response| >= 2 ==>
              r.value == (reply.response[1] as bv16) * 256 + reply.response[0] as bv16
    ensures reply.Ack? && |reply.response| == 0 ==> r.value == 0
  {
    if reply.Nack? then Err(I2C(reply.error))
    else
      var data := Filled([0, 0], reply.response);
      Ok(Decode(data[0], data[1]))
  }

  /** What `write_config` and `trigger_measurement` yield for the bus's reply
      to their write. */
  function WriteResult(reply: Reply): (r: Result<()>)
    ensures r.Ok? <==> reply.Ack?
    ensures reply.Nack? ==> r.error == I2C(reply.error)
  {
    if reply.Nack? then Err(I2C(reply.error)) else Ok(())
  }

  /** Whether `t` writes the configuration register of the sensor. */
  predicate IsConfigWrite(t: Transaction)
  {
    t.Write? && t.address == DEVICE_ADDRESS && |t.bytes| == 3 && t.bytes[0] == CONFIG
  }

  /** The bytes the sensor acknowledged in writes of its configuration
      register, in order, among the transactions of `log` numbered `from`
      onwards; `oracle` gives the reply to each transaction. */
  function AcknowledgedConfigBytes(log: seq<Transaction>, oracle: nat -> Reply, from: nat): seq<bv8>
    decreases |log|
  {
    if |log| <= from then []
    else
      var n := |log| - 1;
      AcknowledgedConfigBytes(log[..n], oracle, from)
        + if IsConfigWrite(log[n]) && oracle(n).Ack? then [log[n].bytes[1]] else []
  }

  /** One more transaction adds its byte if, and only if, it is an
      acknowledged configuration write. */
  lemma AcknowledgedConfigBytesAppend(log: seq<Transaction>, t: Transaction, oracle: nat -> Reply, from: nat)
    requires from <= |log|
    ensures AcknowledgedConfigBytes(log + [t], oracle, from)
            == AcknowledgedConfigBytes(log, oracle, from)
               + if IsConfigWrite(t) && oracle(|log|).Ack? then [t.bytes[1]] else []
  {
    assert (log + [t])[..|log|] == log;
  }

  /** Raw contents of the four channels. */
  datatype Measurement = Measurement(uva: bv16, uvb: bv16, uvcomp1: bv16, uvcomp2: bv16)

  /** What `read_all` yields when the bus answers its successive write-reads
      with `replies`: the four reads in order, the first error ending it. */
  function ReadAllResult(replies: seq<Reply>): Result<Measurement>
    requires |replies| == 4
  {
    var uva :- RegisterResult(replies[0]);
    var uvb :- RegisterResult(replies[1]);
    var uvcomp1 :- RegisterResult(replies[2]);
    var uvcomp2 :- RegisterResult(replies[3]);
    Ok(Measurement(uva, uvb, uvcomp1, uvcomp2))
  }

  /** How many write-reads `read_all` issues when answered with `replies`. */
  function ReadAllIssued(replies: seq<Reply>): (n: nat)
    requires |replies| == 4
    ensures 1 <= n <= 4
  {
    if replies[0].Nack? then 1
    else if replies[1].Nack? then 2
    else if replies[2].Nack? then 3
    else 4
  }

  /** `read_all` succeeds exactly when all four reads do; it then has issued
      one write-read per channel and each field is its channel's decoding. */
  lemma ReadAllSucceeds(replies: seq<Reply>)
    requires |replies| == 4
    ensures ReadAllResult(replies).Ok? <==> forall i | 0 <= i < 4 :: replies[i].Ack?
    ensures ReadAllResult(replies).Ok? ==>
              && ReadAllIssued(replies) == 4
              && ReadAllResult(replies).value == Measurement(RegisterResult(replies[0]).value,
                                                             RegisterResult(replies[1]).value,
                                                             RegisterResult(replies[2]).value,
                                                             RegisterResult(replies[3]).value)
  {
  }

  /** When the read of channel i is the first to fail, `read_all` returns
      that read's error, no measurement, and issues nothing after it. */
  lemma ReadAllStopsAtFirstFailure(replies: seq<Reply>, i: nat)
    requires |replies| == 4 && i < 4
    requires replies[i].Nack? && forall j | 0 <= j < i :: replies[j].Ack?
    ensures ReadAllResult(replies) == Err(I2C(replies[i].error))
    ensures ReadAllIssued(replies) == i + 1
  {
  }
}
