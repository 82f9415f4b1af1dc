/** Callback data of contracts: a call encoded with dummy parameters, truncated, and completed by the network. */
module Callback {
  import opened Outcomes
  import opened Saturating
  import opened Scale
  import opened PulseMessages

  const MAX_CALL_DATA_LEN: nat := 256

  ghost const ZEROES: Bytes := seq(32, i => 0)

  /** 32-byte identifiers: accounts, subscription ids, request references. */
  type Id32 = b: Bytes | |b| == 32 ghost witness ZEROES

  type Selector = b: Bytes | |b| == 4 witness [0, 0, 0, 0]

  datatype ContractsCall = ContractsCall(
    dest: Id32,
    value: uint128,
    refTime: uint64,
    proofSize: uint64,
    depositLimit: Option<uint128>,
    data: Bytes
  )

  // ---------- encoding ----------

  function EncodeLimit(limit: Option<uint128>): Bytes {
    match limit
    case None => [0]
    case Some(n) => [1] + Compact(n)
  }

  /** Everything before the data: address, value, weight, deposit limit. */
  function EncodeHead(call: ContractsCall): Bytes {
    [0] + call.dest +
    (Compact(call.value) + (Compact(call.refTime) + (Compact(call.proofSize) + EncodeLimit(call.depositLimit))))
  }

  function EncodeCall(call: ContractsCall): Bytes
    requires |call.data| <= U32_MAX
  {
    EncodeHead(call) + (Compact(|call.data|) + call.data)
  }

  // ---------- decoding ----------

  function DecodeAddress(b: Bytes): Option<Decoded<Id32>> {
    if |b| < 33 || b[0] != 0 then None else Some(Decoded(b[1..33], b[33..]))
  }

  function DecodeLimit(b: Bytes): Option<Decoded<Option<nat>>> {
    if b == [] || b[0] > 1 then None
    else if b[0] == 0 then Some(Decoded(None, b[1..]))
    else
      match DecodeCompact(b[1..], 16)
      case None => None
      case Some(d) => Some(Decoded(Some(d.value), d.rest))
  }

  function DecodeData(b: Bytes): Option<Decoded<Bytes>> {
    match DecodeCompact(b, 4)
    case None => None
    case Some(d) => if |d.rest| < d.value then None else Some(Decoded(d.rest[..d.value], d.rest[d.value..]))
  }

  /** The fields of a decoded call. */
  datatype Fields = Fields(dest: Bytes, value: nat, refTime: nat, proofSize: nat, limit: Option<nat>, data: Bytes)

  function DecodeCall(b: Bytes): Option<Decoded<Fields>> {
    match DecodeAddress(b)
    case None => None
    case Some(dest) =>
      match DecodeCompact(dest.rest, 16)
      case None => None
      case Some(value) =>
        match DecodeCompact(value.rest, 8)
        case None => None
        case Some(refTime) =>
          match DecodeCompact(refTime.rest, 8)
          case None => None
          case Some(proofSize) =>
            match DecodeLimit(proofSize.rest)
            case None => None
            case Some(limit) =>
              match DecodeData(limit.rest)
              case None => None
              case Some(data) =>
                Some(Decoded(Fields(dest.value, value.value, refTime.value, proofSize.value, limit.value, data.value),
                             data.rest))
  }

  function FieldsOf(call: ContractsCall): Fields {
    Fields(call.dest, call.value, call.refTime, call.proofSize, LimitOf(call.depositLimit), call.data)
  }

  function LimitOf(limit: Option<uint128>): Option<nat> {
    match limit
    case None => None
    case Some(n) => Some(n)
  }

  // ---------- reading back what was written ----------

  lemma LimitRoundTrip(limit: Option<uint128>, rest: Bytes)
    ensures DecodeLimit(EncodeLimit(limit) + rest) == Some(Decoded(LimitOf(limit), rest))
  {
    hide Compact, DecodeCompact, Pow256;
    var b := EncodeLimit(limit) + rest;
    if limit.Some? {
      assert b[1..] == Compact(limit.value) + rest;
      Powers();
      CompactRoundTrip(limit.value, 16, rest);
    } else {
      assert b[1..] == rest;
    }
  }

  lemma AddressRoundTrip(dest: Id32, rest: Bytes)
    ensures DecodeAddress([0] + dest + rest) == Some(Decoded(dest, rest))
  {
    var b := [0] + dest + rest;
    assert b[1..33] == dest && b[33..] == rest;
  }

  /** The data comes back as far as its announced length; too few bytes are an error, further ones are left over. */
  lemma DataRead(announced: uint32, bytes: Bytes)
    ensures DecodeData(Compact(announced) + bytes) ==
            if |bytes| < announced then None else Some(Decoded(bytes[..announced], bytes[announced..]))
  {
    hide Compact, DecodeCompact;
    Powers();
    CompactRoundTrip(announced, 4, bytes);
  }

  /** A call whose head is `call`'s, followed by any announced length and any bytes. */
  lemma CallRead(call: ContractsCall, announced: uint32, bytes: Bytes)
    ensures DecodeCall(EncodeHead(call) + (Compact(announced) + bytes)) ==
            if |bytes| < announced then None
            else Some(Decoded(FieldsOf(call.(data := bytes[..announced])), bytes[announced..]))
  {
    hide Compact, DecodeCompact, EncodeLimit, DecodeLimit, DecodeData, DecodeAddress, Pow256;
    var tail := Compact(announced) + bytes;
    var r3 := EncodeLimit(call.depositLimit) + tail;
    var r2 := Compact(call.proofSize) + r3;
    var r1 := Compact(call.refTime) + r2;
    var r0 := Compact(call.value) + r1;
    Reassociate([0] + call.dest, Compact(call.value), Compact(call.refTime), Compact(call.proofSize),
                EncodeLimit(call.depositLimit), tail);
    AddressRoundTrip(call.dest, r0);
    Powers();
    CompactRoundTrip(call.value, 16, r1);
    CompactRoundTrip(call.refTime, 8, r2);
    CompactRoundTrip(call.proofSize, 8, r3);
    LimitRoundTrip(call.depositLimit, tail);
    DataRead(announced, bytes);
  }

  lemma Reassociate(a: Bytes, b: Bytes, c: Bytes, d: Bytes, e: Bytes, f: Bytes)
    ensures (a + (b + (c + (d + e)))) + f == a + (b + (c + (d + (e + f))))
  {
    assert (d + e) + f == d + (e + f);
    assert (c + (d + e)) + f == c + ((d + e) + f);
    assert (b + (c + (d + e))) + f == b + ((c + (d + e)) + f);
  }

  /** Decoding a call undoes encoding it. */
  lemma CallRoundTrip(call: ContractsCall)
    requires |call.data| <= U32_MAX
    ensures DecodeCall(EncodeCall(call)) == Some(Decoded(FieldsOf(call), []))
  {
    hide EncodeHead, DecodeCall, Compact;
    CallRead(call, |call.data|, call.data);
    var n := |call.data|;
    assert call.data[..n] == call.data && call.data[n..] == [];
    assert call.(data := call.data[..n]) == call;
  }

  // ---------- the contract's side ----------

  /** Where calls to this contract go on its own chain. */
  datatype Client = Client(palletIndex: uint8, callIndex: uint8, account: Id32)

  datatype CallParams = CallParams(value: uint128, refTime: uint64, proofSize: uint64, depositLimit: Option<uint128>)

  const DEFAULT_PARAMS := CallParams(0, 4_000_000_000, 200_000, None)

  function CallWith(client: Client, params: Option<CallParams>, data: Bytes): ContractsCall {
    var p := if params.Some? then params.value else DEFAULT_PARAMS;
    ContractsCall(client.account, p.value, p.refTime, p.proofSize, p.depositLimit, data)
  }

  /** `generate_call`: the two indices, then the encoded call. */
  function GenerateCall(client: Client, call: ContractsCall): Bytes
    requires |call.data| <= U32_MAX
  {
    [client.palletIndex, client.callIndex] + EncodeCall(call)
  }

  /** What is left of the call once the dummy parameters are cut off, apart from their announced length. */
  function Truncated(client: Client, params: Option<CallParams>, selector: Selector, dummyLength: nat): Bytes
    requires 4 + dummyLength <= U32_MAX
  {
    [client.palletIndex, client.callIndex] + EncodeHead(CallWith(client, params, [])) +
    (Compact(4 + dummyLength) + selector)
  }

  /** `create_callback_data`: build the call around dummy parameters and cut them off again; it is never too long. */
  method CreateCallbackData(client: Client, selector: Selector, dummy: Bytes, params: Option<CallParams>)
    returns (r: Option<Bytes>)
    requires 4 + |dummy| <= U32_MAX
    ensures r == Some(Truncated(client, params, selector, |dummy|))
  {
    hide Compact, EncodeLimit;
    var data: Bytes := [];
    data := data + selector;
    data := data + dummy;
    var call := GenerateCall(client, CallWith(client, params, data));
    ghost var kept := Truncated(client, params, selector, |dummy|);
    assert call == kept + dummy;
    call := call[..if |call| < |dummy| then 0 else |call| - |dummy|];
    assert call == kept;
    CallbackFits(client, params, selector, |dummy|);
    if |call| > MAX_CALL_DATA_LEN { return None; }
    return Some(call);
  }

  /** The callback fits the call data limit whatever the call parameters and however long the dummies. */
  lemma CallbackFits(client: Client, params: Option<CallParams>, selector: Selector, dummyLength: nat)
    requires 4 + dummyLength <= U32_MAX
    ensures |Truncated(client, params, selector, dummyLength)| <= 97 <= MAX_CALL_DATA_LEN
  {
    hide Compact, Pow256;
    var call := CallWith(client, params, []);
    Powers();
    CompactLength(call.value, 16);
    CompactLength(call.refTime, 8);
    CompactLength(call.proofSize, 8);
    if call.depositLimit.Some? { CompactLength(call.depositLimit.value, 16); }
    CompactLength(4 + dummyLength, 4);
  }

  // ---------- the network's side ----------

  /** How the target chain reads a completed callback after dispatching on the two indices. */
  function ReadCallback(callback: Bytes): Option<Decoded<Fields>> {
    if |callback| < 2 then None else DecodeCall(callback[2..])
  }

  /**
   * Truncated callback data followed by any real parameters: the target chain reads the original call with
   * the real parameters, and nothing left over, exactly when they are as long as the dummies were.
   */
  lemma CompletedCallbackIff(client: Client, params: Option<CallParams>, selector: Selector, dummyLength: nat,
                             actual: Bytes)
    requires 4 + dummyLength <= U32_MAX
    ensures ReadCallback(Truncated(client, params, selector, dummyLength) + actual) ==
            Some(Decoded(FieldsOf(CallWith(client, params, selector + actual)), [])) <==>
            |actual| == dummyLength
  {
    hide Compact, EncodeHead, DecodeCall;
    var call := CallWith(client, params, []);
    var data := selector + actual;
    var n := 4 + dummyLength;
    CallRead(call, n, data);
    var b := Truncated(client, params, selector, dummyLength) + actual;
    assert b[2..] == EncodeHead(call) + (Compact(n) + data);
    if |data| >= n {
      assert FieldsOf(call.(data := data[..n])).data == data[..n];
      assert |data[n..]| == |actual| - dummyLength;
      if |actual| == dummyLength {
        assert data[..n] == data && data[n..] == [];
      }
    }
  }

  /**
   * Field by field, what the target chain reads when parameters as long as the dummies are appended: the call goes to
   * the contract itself, with the value, weight and deposit limit asked for or else the defaults, and the data is the
   * selector followed by the parameters. The two bytes before it are the indices of the contract's chain.
   */
  lemma CompletedCallbackFields(client: Client, params: Option<CallParams>, selector: Selector, actual: Bytes)
    requires 4 + |actual| <= U32_MAX
    ensures var b := Truncated(client, params, selector, |actual|) + actual;
            && |b| >= 2 && b[0] == client.palletIndex && b[1] == client.callIndex
            && ReadCallback(b) == Some(Decoded(
                 match params
                 case None => Fields(client.account, 0, 4_000_000_000, 200_000, None, selector + actual)
                 case Some(p) =>
                   Fields(client.account, p.value, p.refTime, p.proofSize,
                          if p.depositLimit.None? then None else Some(p.depositLimit.value), selector + actual),
                 []))
  {
    hide EncodeHead, Compact, ReadCallback;
    CompletedCallbackIff(client, params, selector, |actual|, actual);
  }

  lemma Flatten(x: uint8, y: uint8, dest: Bytes, value: Bytes, refTime: Bytes, proofSize: Bytes, limit: Bytes,
                length: Bytes, selector: Bytes)
    ensures [x, y] + ([0] + dest + (value + (refTime + (proofSize + limit)))) + (length + selector) ==
            [x, y, 0] + dest + (value + refTime + proofSize + limit + length) + selector
  {
  }

  /** Byte by byte the data of a pulse callback by default: address, value, weight, no limit, length, selector. */
  lemma DefaultLayout(client: Client, selector: Selector)
    ensures Truncated(client, None, selector, 96) ==
            [client.palletIndex, client.callIndex, 0] + client.account +
            [0, 3, 0, 40, 107, 238, 2, 53, 12, 0, 0, 145, 1] + selector
  {
    hide Compact;
    CompactVectors();
    Flatten(client.palletIndex, client.callIndex, client.account,
            [0], [3, 0, 40, 107, 238], [2, 53, 12, 0], [0], [145, 1], selector);
  }

  /** And with sample parameters that include a deposit limit. */
  lemma SampleLayout(client: Client, selector: Selector)
    ensures Truncated(client, Some(CallParams(1, 42, 69, Some(65_535))), selector, 96) ==
            [client.palletIndex, client.callIndex, 0] + client.account +
            [4, 168, 21, 1, 1, 254, 255, 3, 0, 145, 1] + selector
  {
    hide Compact;
    CompactVectors();
    Flatten(client.palletIndex, client.callIndex, client.account,
            [4], [168], [21, 1], [1] + [254, 255, 3, 0], [145, 1], selector);
  }

  // ---------- pulses and quotes ----------

  const SIGNATURE_SIZE: nat := 48

  function EncodePulse(p: Pulse): Bytes {
    p.signature + (LittleEndian(p.start, 8) + LittleEndian(p.end, 8))
  }

  /** The parameters of a pulse callback: the pulse, then the subscription id. */
  function PulseParams(p: Pulse, id: Id32): Bytes {
    EncodePulse(p) + id
  }

  /** What a contract reads out of the parameters of a pulse callback. */
  datatype ReadPulse = ReadPulse(signature: Bytes, start: nat, end: nat, id: Bytes)

  function DecodePulseParams(b: Bytes): Option<ReadPulse> {
    if |b| != 96 then None
    else Some(ReadPulse(b[..48], FromLittleEndian(b[48..56]), FromLittleEndian(b[56..64]), b[64..]))
  }

  datatype Quote = Quote(reqRef: Id32, fees: uint128, deposit: uint128)

  function EncodeQuote(q: Quote): Bytes {
    q.reqRef + (LittleEndian(q.fees, 16) + LittleEndian(q.deposit, 16))
  }

  datatype ReadQuote = ReadQuote(reqRef: Bytes, fees: nat, deposit: nat)

  function DecodeQuote(b: Bytes): Option<ReadQuote> {
    if |b| != 64 then None else Some(ReadQuote(b[..32], FromLittleEndian(b[32..48]), FromLittleEndian(b[48..])))
  }

  lemma PulseParamsRoundTrip(p: Pulse, id: Id32)
    requires |p.signature| == SIGNATURE_SIZE
    ensures |PulseParams(p, id)| == 96
    ensures DecodePulseParams(PulseParams(p, id)) == Some(ReadPulse(p.signature, p.start, p.end, id))
  {
    hide LittleEndian, FromLittleEndian, Pow256;
    Powers();
    LittleEndianLength(p.start, 8);
    LittleEndianLength(p.end, 8);
    LittleEndianRoundTrip(p.start, 8);
    LittleEndianRoundTrip(p.end, 8);
    var b := PulseParams(p, id);
    assert b[..48] == p.signature && b[64..] == id;
    assert b[48..56] == LittleEndian(p.start, 8) && b[56..64] == LittleEndian(p.end, 8);
  }

  lemma QuoteRoundTrip(q: Quote)
    ensures |EncodeQuote(q)| == 64
    ensures DecodeQuote(EncodeQuote(q)) == Some(ReadQuote(q.reqRef, q.fees, q.deposit))
  {
    hide LittleEndian, FromLittleEndian, Pow256;
    Powers();
    LittleEndianLength(q.fees, 16);
    LittleEndianLength(q.deposit, 16);
    LittleEndianRoundTrip(q.fees, 16);
    LittleEndianRoundTrip(q.deposit, 16);
    var b := EncodeQuote(q);
    assert b[..32] == q.reqRef && b[32..48] == LittleEndian(q.fees, 16) && b[48..] == LittleEndian(q.deposit, 16);
  }

  /** Where the parts of the parameters are: signature, first and last round, id; reference, fees, deposit. */
  lemma ParamsLayout(p: Pulse, id: Id32, q: Quote)
    requires |p.signature| == SIGNATURE_SIZE
    ensures var b := PulseParams(p, id);
            && |b| == 96 && b[..48] == p.signature && b[48..56] == LittleEndian(p.start, 8)
            && b[56..64] == LittleEndian(p.end, 8) && b[64..] == id
    ensures var b := EncodeQuote(q);
            && |b| == 64 && b[..32] == q.reqRef && b[32..48] == LittleEndian(q.fees, 16)
            && b[48..] == LittleEndian(q.deposit, 16)
  {
    hide LittleEndian;
    LittleEndianLength(p.start, 8);
    LittleEndianLength(p.end, 8);
    LittleEndianLength(q.fees, 16);
    LittleEndianLength(q.deposit, 16);
  }

  /**
   * Pulse callbacks: prepared around any dummy pulse and id and completed with any real ones, they fit the limit
   * and deliver the original call with the selector, that pulse and that id.
   */
  lemma PulseCallbackRoundTrip(client: Client, params: Option<CallParams>, selector: Selector,
                               dummy: Pulse, dummyId: Id32, pulse: Pulse, id: Id32)
    requires |dummy.signature| == |pulse.signature| == SIGNATURE_SIZE
    ensures var sent := PulseParams(pulse, id); var n := |PulseParams(dummy, dummyId)|;
            && 4 + n <= U32_MAX && |Truncated(client, params, selector, n)| <= MAX_CALL_DATA_LEN
            && ReadCallback(Truncated(client, params, selector, n) + sent) ==
               Some(Decoded(FieldsOf(CallWith(client, params, selector + sent)), []))
            && DecodePulseParams((selector + sent)[4..]) == Some(ReadPulse(pulse.signature, pulse.start, pulse.end, id))
  {
    hide Truncated, ReadCallback, FieldsOf, CallWith, PulseParams, DecodePulseParams;
    PulseParamsRoundTrip(dummy, dummyId);
    PulseParamsRoundTrip(pulse, id);
    var sent := PulseParams(pulse, id);
    CallbackFits(client, params, selector, 96);
    CompletedCallbackIff(client, params, selector, 96, sent);
    assert (selector + sent)[4..] == sent;
  }

  /** Quote callbacks, likewise. */
  lemma QuoteCallbackRoundTrip(client: Client, params: Option<CallParams>, selector: Selector,
                               dummy: Quote, quote: Quote)
    ensures var sent, n := EncodeQuote(quote), |EncodeQuote(dummy)|;
            && 4 + n <= U32_MAX && |Truncated(client, params, selector, n)| <= MAX_CALL_DATA_LEN
            && ReadCallback(Truncated(client, params, selector, n) + sent) ==
               Some(Decoded(FieldsOf(CallWith(client, params, selector + sent)), []))
            && DecodeQuote((selector + sent)[4..]) == Some(ReadQuote(quote.reqRef, quote.fees, quote.deposit))
  {
    hide Truncated, ReadCallback, FieldsOf, CallWith, EncodeQuote, DecodeQuote;
    QuoteRoundTrip(dummy);
    QuoteRoundTrip(quote);
    var sent := EncodeQuote(quote);
    CallbackFits(client, params, selector, 64);
    CompletedCallbackIff(client, params, selector, 64, sent);
    assert (selector + sent)[4..] == sent;
  }
}
