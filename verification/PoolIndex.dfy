/**
 Decoding of Initialize logs and the pool key bytes that are hashed into a pool id.
 Hashing itself is not modelled: ids are compared by the bytes they are the hash of.
 */
module PoolIndex {
  import opened Wrappers
  import opened Bytes
  import opened Words

  datatype Error = TooFewTopics | ShortTopic | ShortData | CurrencyOrder

  datatype PoolKey = PoolKey(currency0: seq<Byte>, currency1: seq<Byte>, fee: nat,
                             tickSpacing: int, hooks: seq<Byte>)

  datatype Row = Row(key: PoolKey, sqrtPriceX96: nat, tick: int, idBytes: seq<Byte>)

  /** Value ranges of the key's fields: 20-byte addresses, u64 fee, i32 spacing. */
  predicate Typed(key: PoolKey) {
    && |key.currency0| == 20 && |key.currency1| == 20 && |key.hooks| == 20
    && key.fee < TWO_64
    && -0x8000_0000 <= key.tickSpacing < 0x8000_0000
  }

  predicate Below(a: seq<Byte>, b: seq<Byte>)
    requires |a| == |b|
  {
    Value(a) < Value(b)
  }

  /** `as i32`: the low 32 bits read as a signed number. */
  function AsI32(v: int): (r: int)
    ensures -0x8000_0000 <= r < 0x8000_0000
  {
    var low := v % 0x1_0000_0000;
    if low < 0x8000_0000 then low else low - 0x1_0000_0000
  }

  /** `to_be_bytes` of an i32. */
  function I32Bytes(v: int): (r: seq<Byte>)
    requires -0x8000_0000 <= v < 0x8000_0000
    ensures |r| == 4
  {
    Fixed(if v < 0 then v + 0x1_0000_0000 else v, 4)
  }

  /** The 136-byte layout: the fee has 8 bytes and the spacing 4, around 28 zeros. */
  function KeyBytes(key: PoolKey): (r: Result<seq<Byte>, Error>)
    requires Typed(key)
    ensures r.Ok? <==> Below(key.currency0, key.currency1)
    ensures r.Ok? ==> |r.value| == 136
  {
    if !Below(key.currency0, key.currency1) then Err(CurrencyOrder)
    else
      Ok(Zeros(12) + key.currency0 + (Zeros(12) + key.currency1) + Fixed(key.fee, 8) + Zeros(28)
         + I32Bytes(key.tickSpacing) + (Zeros(12) + key.hooks))
  }

  /** The contract ABI form of the same key: five words. */
  function AbiKeyBytes(key: PoolKey): (r: seq<Byte>)
    requires Typed(key)
    ensures |r| == 160
  {
    Widths();
    U256Value(key.fee);
    Zeros(12) + key.currency0 + (Zeros(12) + key.currency1) + U256Bytes(key.fee).value
    + Int256Signed(key.tickSpacing) + (Zeros(12) + key.hooks)
  }

  function TopicAddress(topic: seq<Byte>): (r: seq<Byte>)
    requires |topic| >= 20
    ensures |r| == 20
  {
    topic[|topic| - 20..]
  }

  /** The five data words as the decoder reads and narrows them. */
  function ReadEvent(data: seq<Byte>): (r: Result<Event, Error>)
    ensures r.Ok? ==> |r.value.hooks| == 20 && r.value.fee < TWO_64
    ensures r.Ok? ==> -0x8000_0000 <= r.value.tickSpacing < 0x8000_0000
  {
    if |data| < 160 then Err(ShortData)
    else
      Ok(Event(U256Be(data, 0).value % TWO_64, AsI32(I256Be(data, 32).value), data[76..96],
               U256Be(data, 96).value, AsI32(I256Be(data, 128).value)))
  }

  /** The row for a decoded event, with the bytes its id is the hash of. */
  function RowOf(currency0: seq<Byte>, currency1: seq<Byte>, e: Event): (r: Result<Row, Error>)
    requires |currency0| == 20 && |currency1| == 20 && |e.hooks| == 20
    requires e.fee < TWO_64 && -0x8000_0000 <= e.tickSpacing < 0x8000_0000
    ensures r.Ok? <==> Below(currency0, currency1)
  {
    var key := PoolKey(currency0, currency1, e.fee, e.tickSpacing, e.hooks);
    match KeyBytes(key)
    case Err(error) => Err(error)
    case Ok(idBytes) => Ok(Row(key, e.sqrtPriceX96, e.tick, idBytes))
  }

  function DecodeInitialize(topics: seq<seq<Byte>>, data: seq<Byte>): Result<Row, Error> {
    if |topics| < 4 then Err(TooFewTopics)
    else if |topics[2]| < 20 || |topics[3]| < 20 then Err(ShortTopic)
    else
      match ReadEvent(data)
      case Err(error) => Err(error)
      case Ok(e) => RowOf(TopicAddress(topics[2]), TopicAddress(topics[3]), e)
  }

  // ----- what a contract emits -----

  /** The five data words of an Initialize event. */
  datatype Event = Event(fee: nat, tickSpacing: int, hooks: seq<Byte>, sqrtPriceX96: nat, tick: int)

  /** uint24, int24, address, uint160, int24. */
  predicate Emitted(e: Event) {
    && e.fee < 0x100_0000
    && -0x80_0000 <= e.tickSpacing < 0x80_0000 && -0x80_0000 <= e.tick < 0x80_0000
    && |e.hooks| == 20
    && e.sqrtPriceX96 < 0x1_0000_0000 * TWO_128
  }

  function EventData(e: Event): (r: seq<Byte>)
    requires Emitted(e)
    ensures |r| == 160
  {
    U256Value(e.fee);
    U256Value(e.sqrtPriceX96);
    U256Bytes(e.fee).value + Int256Signed(e.tickSpacing) + (Zeros(12) + e.hooks)
    + U256Bytes(e.sqrtPriceX96).value + Int256Signed(e.tick)
  }

  lemma ReadsUnsigned(data: seq<Byte>, at: nat, v: nat)
    requires at + 32 <= |data| && v < TWO_256 && Some(data[at..at + 32]) == U256Bytes(v)
    ensures U256Be(data, at) == Some(v % TWO_128)
  {
    UnsignedReadExactIff(v);
  }

  lemma ReadsSigned(data: seq<Byte>, at: nat, v: int)
    requires -0x8000_0000 <= v < 0x8000_0000
    requires at + 32 <= |data| && data[at..at + 32] == Int256Signed(v)
    ensures I256Be(data, at).Some? && AsI32(I256Be(data, at).value) == v
  {
    SignedRoundTrip(v);
    AsI32Exact(v);
  }

  /** `data` holds the event's five words one after another. */
  predicate Holds(data: seq<Byte>, e: Event)
    requires Emitted(e)
  {
    && |data| == 160
    && Some(data[0..32]) == U256Bytes(e.fee)
    && data[32..64] == Int256Signed(e.tickSpacing)
    && data[76..96] == e.hooks
    && Some(data[96..128]) == U256Bytes(e.sqrtPriceX96)
    && data[128..160] == Int256Signed(e.tick)
  }

  lemma FiveWords(a: seq<Byte>, b: seq<Byte>, c: seq<Byte>, d: seq<Byte>, e: seq<Byte>)
    requires |a| == |b| == |c| == |d| == |e| == 32
    ensures var s := a + b + c + d + e;
            && s[0..32] == a && s[32..64] == b && s[76..96] == c[12..]
            && s[96..128] == d && s[128..160] == e
  {
  }

  lemma EventHolds(e: Event)
    requires Emitted(e)
    ensures Holds(EventData(e), e)
  {
    U256Value(e.fee);
    U256Value(e.sqrtPriceX96);
    FiveWords(U256Bytes(e.fee).value, Int256Signed(e.tickSpacing), Zeros(12) + e.hooks,
              U256Bytes(e.sqrtPriceX96).value, Int256Signed(e.tick));
    assert (Zeros(12) + e.hooks)[12..] == e.hooks;
  }

  lemma SmallRead(v: nat)
    requires v < TWO_64
    ensures v % TWO_128 % TWO_64 == v
  {
  }

  lemma ReadsHeld(data: seq<Byte>, e: Event)
    requires Emitted(e) && Holds(data, e)
    ensures ReadEvent(data) == Ok(e.(sqrtPriceX96 := e.sqrtPriceX96 % TWO_128))
  {
    ReadsUnsigned(data, 0, e.fee);
    SmallRead(e.fee);
    ReadsSigned(data, 32, e.tickSpacing);
    ReadsUnsigned(data, 96, e.sqrtPriceX96);
    ReadsSigned(data, 128, e.tick);
  }

  lemma AsI32Exact(v: int)
    requires -0x8000_0000 <= v < 0x8000_0000
    ensures AsI32(v) == v
  {
  }

  lemma Narrowed(v: nat)
    ensures v % TWO_128 == v <==> v < TWO_128
  {
  }

  /**
   A log emitted for ordered currencies decodes to its fee, spacing, hooks and tick; the square
   root price comes back modulo 2^128, so it is right exactly when it fits 128 of its 160 bits.
   */
  /** Whatever precedes it, an address at the end of a topic is the address read from it. */
  lemma TopicEndsInAddress(before: seq<Byte>, address: seq<Byte>)
    requires |address| == 20
    ensures TopicAddress(before + address) == address
  {
  }

  /**
   A log whose topics end in two addresses and whose data is that of an event decodes to the pool of
   these addresses and the event's fields, or to the currency error exactly when the first address
   is not below the second.
   */
  lemma DecodesEmitted(topics: seq<seq<Byte>>, e: Event, before0: seq<Byte>, c0: seq<Byte>,
                       before1: seq<Byte>, c1: seq<Byte>)
    requires |topics| >= 4 && topics[2] == before0 + c0 && topics[3] == before1 + c1
    requires |c0| == 20 && |c1| == 20 && Emitted(e)
    ensures var r := DecodeInitialize(topics, EventData(e));
            && (r == Err(CurrencyOrder) <==> Value(c0) >= Value(c1))
            && (Value(c0) < Value(c1) ==>
                  && r.Ok?
                  && r.value.key == PoolKey(c0, c1, e.fee, e.tickSpacing, e.hooks)
                  && r.value.tick == e.tick
                  && r.value.sqrtPriceX96 == e.sqrtPriceX96 % TWO_128
                  && (r.value.sqrtPriceX96 == e.sqrtPriceX96 <==> e.sqrtPriceX96 < TWO_128)
                  && Ok(r.value.idBytes) == KeyBytes(r.value.key))
  {
    TopicEndsInAddress(before0, c0);
    TopicEndsInAddress(before1, c1);
    EventHolds(e);
    ReadsHeld(EventData(e), e);
    Narrowed(e.sqrtPriceX96);
  }

  // ----- pool ids -----

  lemma Pieces(a: seq<Byte>, c: seq<Byte>, fee: seq<Byte>, spacing: seq<Byte>, hooks: seq<Byte>)
    requires |a| == |c| == |hooks| == 20 && |fee| == 8 && |spacing| == 4
    ensures var b := Zeros(12) + a + (Zeros(12) + c) + fee + Zeros(28) + spacing + (Zeros(12) + hooks);
            && (forall i :: 0 <= i < 12 || 32 <= i < 44 || 72 <= i < 100 || 104 <= i < 116 ==> b[i] == 0)
            && b[12..32] == a && b[44..64] == c && b[64..72] == fee && b[100..104] == spacing && b[116..136] == hooks
  {
  }

  lemma FixedExact(v: nat, width: nat)
    requires v < Pow256(width)
    ensures Value(Fixed(v, width)) == v
  {
    FixedValue(v, width);
    DivModUnique(v, Pow256(width), 0, v);
  }

  lemma LowBits(v: int)
    requires -0x8000_0000 <= v < 0x8000_0000
    ensures (if v < 0 then v + 0x1_0000_0000 else v) == v % 0x1_0000_0000
  {
  }

  lemma NumberFields(fee: nat, spacing: int)
    requires fee < TWO_64 && -0x8000_0000 <= spacing < 0x8000_0000
    ensures Value(Fixed(fee, 8)) == fee && Value(I32Bytes(spacing)) == spacing % 0x1_0000_0000
  {
    Widths();
    LowBits(spacing);
    FixedExact(fee, 8);
    FixedExact(if spacing < 0 then spacing + 0x1_0000_0000 else spacing, 4);
  }

  /**
   The 136 bytes one by one: both addresses and the hooks each after twelve zeros, the fee in eight
   bytes before twenty-eight zeros and the tick spacing modulo 2^32 in four.
   */
  lemma KeyLayout(key: PoolKey)
    requires Typed(key) && Value(key.currency0) < Value(key.currency1)
    ensures KeyBytes(key).Ok?
    ensures var b := KeyBytes(key).value;
            && |b| == 136
            && (forall i :: 0 <= i < 12 || 32 <= i < 44 || 72 <= i < 100 || 104 <= i < 116 ==> b[i] == 0)
            && b[12..32] == key.currency0 && b[44..64] == key.currency1 && b[116..136] == key.hooks
            && Value(b[64..72]) == key.fee && Value(b[100..104]) == key.tickSpacing % 0x1_0000_0000
  {
    Pieces(key.currency0, key.currency1, Fixed(key.fee, 8), I32Bytes(key.tickSpacing), key.hooks);
    NumberFields(key.fee, key.tickSpacing);
  }

  lemma SpacingFromLowBits(v: int, w: int)
    requires -0x8000_0000 <= v < 0x8000_0000 && -0x8000_0000 <= w < 0x8000_0000
    requires v % 0x1_0000_0000 == w % 0x1_0000_0000
    ensures v == w
  {
    LowBits(v);
    LowBits(w);
  }

  /** Different keys are hashed from different bytes, and never from the ABI form's bytes. */
  lemma KeyBytesIdentify(a: PoolKey, b: PoolKey)
    requires Typed(a) && Typed(b) && KeyBytes(a).Ok? && KeyBytes(b).Ok?
    ensures KeyBytes(a).value == KeyBytes(b).value <==> a == b
    ensures KeyBytes(a).value != AbiKeyBytes(b)
  {
    KeyLayout(a);
    KeyLayout(b);
    if KeyBytes(a).value == KeyBytes(b).value {
      SpacingFromLowBits(a.tickSpacing, b.tickSpacing);
    }
  }
}
