/**
 Calldata of the quoter's exact-input-single call (Solidity Contract ABI Specification,
 "Formal Specification of the Encoding"): seven static words, one offset, one dynamic tail.
 */
module Calldata {
  import opened Wrappers
  import opened Bytes
  import opened Words

  datatype Error = InvalidAddress | ExceedsUint256

  /** The eight arguments; `hooks` defaults to the zero address. */
  datatype Quote = Quote(
    currency0: seq<Byte>,
    currency1: seq<Byte>,
    fee: nat,
    tickSpacing: int,
    hooks: Option<seq<Byte>>,
    zeroForOne: bool,
    amountIn: nat,
    hookData: seq<Byte>)

  /** What the argument types admit before encoding: u64 fee, i64 spacing, 64-bit lengths. */
  predicate Parsed(q: Quote) {
    && q.fee < TWO_64
    && -0x8000_0000_0000_0000 <= q.tickSpacing < 0x8000_0000_0000_0000
    && |q.hookData| < TWO_64
  }

  function Hooks(q: Quote): seq<Byte> {
    q.hooks.GetOr(Zeros(20))
  }

  predicate Accepted(q: Quote) {
    && |q.currency0| == 20 && |q.currency1| == 20 && |Hooks(q)| == 20
    && q.amountIn < TWO_256
  }

  /** Zero bytes that bring a length up to a multiple of 32. */
  function PadLength(n: nat): (p: nat)
    ensures p < 32 && (n + p) % 32 == 0
  {
    (32 - n % 32) % 32
  }

  function Uint(v: nat): (r: seq<Byte>)
    requires v < TWO_256
    ensures |r| == 32
  {
    U256Value(v);
    U256Bytes(v).value
  }

  /** A dynamic `bytes` tail: length word, data, zero padding. */
  function Tail(data: seq<Byte>): seq<Byte>
    requires |data| < TWO_64
  {
    Uint(|data|) + data + Zeros(PadLength(|data|))
  }

  function KeyWords(q: Quote): (r: seq<Byte>)
    requires Parsed(q) && |q.currency0| == 20 && |q.currency1| == 20 && |Hooks(q)| == 20
    ensures |r| == 160
  {
    Zeros(12) + q.currency0 + (Zeros(12) + q.currency1) + Uint(q.fee) + Int256Signed(q.tickSpacing)
    + (Zeros(12) + Hooks(q))
  }

  function Head(q: Quote): (r: seq<Byte>)
    requires Parsed(q) && Accepted(q)
    ensures |r| == 224
  {
    KeyWords(q) + BoolWord(q.zeroForOne) + Uint(q.amountIn)
  }

  function Encode(selector: seq<Byte>, q: Quote): seq<Byte>
    requires |selector| == 4 && Parsed(q) && Accepted(q)
  {
    selector + Head(q) + Uint(256) + Tail(q.hookData)
  }

  // ----- decoder -----

  function WordAt(bytes: seq<Byte>, at: nat): (r: seq<Byte>)
    requires at + 32 <= |bytes|
    ensures |r| == 32
  {
    bytes[at..at + 32]
  }

  /** Follows the offset word to the tail; offsets count from the end of the selector. */
  function DecodeBytes(bytes: seq<Byte>, offsetAt: nat): Option<seq<Byte>>
    requires offsetAt + 32 <= |bytes|
  {
    var at := 4 + Value(WordAt(bytes, offsetAt));
    if at + 32 > |bytes| then None
    else
      var n := Value(WordAt(bytes, at));
      if at + 32 + n > |bytes| then None else Some(bytes[at + 32..at + 32 + n])
  }

  function Decode(bytes: seq<Byte>): Option<(seq<Byte>, Quote)> {
    if |bytes| < 260 then None
    else
      match DecodeBytes(bytes, 228)
      case None => None
      case Some(data) =>
        Some((bytes[..4],
              Quote(WordAt(bytes, 4)[12..], WordAt(bytes, 36)[12..],
                    Value(WordAt(bytes, 68)), TwosComplement(WordAt(bytes, 100)),
                    Some(WordAt(bytes, 132)[12..]), Value(WordAt(bytes, 164)) == 1,
                    Value(WordAt(bytes, 196)), data)))
  }

  const UINT24: int := 0x100_0000
  const INT24: int := 0x80_0000

  /** The arguments are values of the call's types: uint24, int24 and uint128. */
  predicate InRange(q: Quote) {
    q.fee < UINT24 && -INT24 <= q.tickSpacing < INT24 && q.amountIn < TWO_128
  }

  /** The words of addresses and of the flag have zeros above their values. */
  predicate CleanWords(bytes: seq<Byte>)
    requires |bytes| >= 260
  {
    && WordAt(bytes, 4)[..12] == WordAt(bytes, 36)[..12] == WordAt(bytes, 132)[..12] == Zeros(12)
    && Value(WordAt(bytes, 164)) <= 1
  }

  /** A decoder for the declared types, which rejects words that hold no value of their type. */
  function DecodeTyped(bytes: seq<Byte>): Option<(seq<Byte>, Quote)> {
    match Decode(bytes)
    case None => None
    case Some((selector, q)) => if CleanWords(bytes) && InRange(q) then Some((selector, q)) else None
  }

  // ----- the calldata loses nothing -----

  lemma UintValue(v: nat)
    requires v < TWO_256
    ensures Value(Uint(v)) == v
  {
    U256Value(v);
  }

  lemma BoolValue(b: bool)
    ensures Value(BoolWord(b)) == if b then 1 else 0
  {
    var last: seq<Byte> := [if b then 1 else 0];
    ValueConcat(Zeros(31), last);
    ValueZeros(31);
    assert last[..0] == [];
  }

  lemma HeadWords(selector: seq<Byte>, q: Quote, rest: seq<Byte>)
    requires |selector| == 4 && Parsed(q) && Accepted(q)
    ensures var bytes := selector + Head(q) + rest;
            && bytes[..4] == selector
            && WordAt(bytes, 4) == Zeros(12) + q.currency0
            && WordAt(bytes, 36) == Zeros(12) + q.currency1
            && WordAt(bytes, 68) == Uint(q.fee)
            && WordAt(bytes, 100) == Int256Signed(q.tickSpacing)
            && WordAt(bytes, 132) == Zeros(12) + Hooks(q)
            && WordAt(bytes, 164) == BoolWord(q.zeroForOne)
            && WordAt(bytes, 196) == Uint(q.amountIn)
  {
  }

  /** The offset word sends a reader to the first byte of the tail, and nowhere else. */
  lemma OffsetFindsTail(selector: seq<Byte>, q: Quote)
    requires |selector| == 4 && Parsed(q) && Accepted(q)
    ensures var bytes := Encode(selector, q);
            && |bytes| >= 260
            && 4 + Value(WordAt(bytes, 228)) <= |bytes|
            && bytes[4 + Value(WordAt(bytes, 228))..] == Tail(q.hookData)
            && DecodeBytes(bytes, 228) == Some(q.hookData)
  {
    var bytes := Encode(selector, q);
    var tail := Tail(q.hookData);
    assert WordAt(bytes, 228) == Uint(256);
    UintValue(256);
    assert bytes[260..] == tail;
    assert WordAt(bytes, 260) == tail[..32] == Uint(|q.hookData|);
    UintValue(|q.hookData|);
    assert bytes[292..292 + |q.hookData|] == tail[32..32 + |q.hookData|] == q.hookData;
  }

  /** Decoding calldata gives back the selector and all eight arguments. */
  lemma RoundTrip(selector: seq<Byte>, q: Quote)
    requires |selector| == 4 && Parsed(q) && Accepted(q)
    ensures Decode(Encode(selector, q)) == Some((selector, q.(hooks := Some(Hooks(q)))))
  {
    var rest := Uint(256) + Tail(q.hookData);
    var bytes := selector + Head(q) + rest;
    assert bytes == Encode(selector, q);
    HeadWords(selector, q, rest);
    OffsetFindsTail(selector, q);
    UintValue(q.fee);
    UintValue(q.amountIn);
    BoolValue(q.zeroForOne);
    SignedRoundTrip(q.tickSpacing);
  }

  /** Quotes of addresses and words are encoded: given hooks as given, absent ones as twenty zero bytes. */
  lemma HooksEncoded(selector: seq<Byte>, q: Quote)
    requires |selector| == 4 && Parsed(q)
    requires |q.currency0| == 20 && |q.currency1| == 20 && q.amountIn < TWO_256
    requires q.hooks.Some? ==> |q.hooks.value| == 20
    ensures Accepted(q) && Decode(Encode(selector, q)).Some?
    ensures Decode(Encode(selector, q)).value.1.hooks ==
            Some(if q.hooks.Some? then q.hooks.value
                 else [0, 0, 0, 0, 0, 0, 0, 0, 0, 0, 0, 0, 0, 0, 0, 0, 0, 0, 0, 0])
  {
    RoundTrip(selector, q);
    assert Zeros(20) == [0, 0, 0, 0, 0, 0, 0, 0, 0, 0, 0, 0, 0, 0, 0, 0, 0, 0, 0, 0];
  }

  /**
   Calldata is an encoding of the call's argument types, with the same arguments, exactly when fee,
   tick spacing and amount are in range; the code checks none of the three.
   */
  lemma TypedRoundTripIff(selector: seq<Byte>, q: Quote)
    requires |selector| == 4 && Parsed(q) && Accepted(q)
    ensures DecodeTyped(Encode(selector, q)) ==
            if q.fee < 0x100_0000 && -0x80_0000 <= q.tickSpacing < 0x80_0000 && q.amountIn < TWO_128
            then Some((selector, q.(hooks := Some(Hooks(q))))) else None
  {
    RoundTrip(selector, q);
    WordsClean(selector, q);
  }

  lemma WordsClean(selector: seq<Byte>, q: Quote)
    requires |selector| == 4 && Parsed(q) && Accepted(q)
    ensures |Encode(selector, q)| >= 260 && CleanWords(Encode(selector, q))
  {
    var rest := Uint(256) + Tail(q.hookData);
    var bytes := selector + Head(q) + rest;
    assert bytes == Encode(selector, q);
    HeadWords(selector, q, rest);
    BoolValue(q.zeroForOne);
    assert (Zeros(12) + q.currency0)[..12] == Zeros(12);
    assert (Zeros(12) + q.currency1)[..12] == Zeros(12);
    assert (Zeros(12) + Hooks(q))[..12] == Zeros(12);
  }

  /** No shorter padding brings the tail to a whole number of words. */
  lemma PaddingMinimal(n: nat, pad: nat)
    requires (n + pad) % 32 == 0
    ensures PadLength(n) <= pad
  {
  }

  lemma TailWords(data: seq<Byte>)
    requires |data| < TWO_64
    ensures |Tail(data)| % 32 == 0 && |Tail(data)| - 32 - |data| == PadLength(|data|)
  {
  }

  // ----- the buffer-filling encoder -----

  /** Padding of a length word and n bytes stops exactly at the pad length. */
  lemma PadStops(n: nat, pushed: nat)
    requires pushed <= PadLength(n)
    ensures (32 + n + pushed) % 32 == 0 <==> pushed == PadLength(n)
  {
  }

  method EncodeTail(data: seq<Byte>) returns (tail: seq<Byte>)
    requires |data| < TWO_64
    ensures tail == Tail(data)
  {
    tail := Uint(|data|);
    tail := tail + data;
    ghost var body := tail;
    ghost var pushed := 0;
    while |tail| % 32 != 0
      invariant pushed <= PadLength(|data|)
      invariant tail == body + Zeros(pushed) && |tail| == 32 + |data| + pushed
      decreases PadLength(|data|) - pushed
    {
      PadStops(|data|, pushed);
      assert Zeros(pushed) + [0] == Zeros(pushed + 1);
      tail := tail + [0];
      pushed := pushed + 1;
    }
    PadStops(|data|, pushed);
  }

  method BuildKeyWords(q: Quote) returns (result: Result<seq<Byte>, Error>)
    requires Parsed(q)
    ensures result.Ok? <==> |q.currency0| == 20 && |q.currency1| == 20 && |Hooks(q)| == 20
    ensures result == if result.Ok? then Ok(KeyWords(q)) else Err(InvalidAddress)
  {
    var currency0 := AddressWord(q.currency0);
    if currency0.None? {
      return Err(InvalidAddress);
    }
    var head := currency0.value;
    var currency1 := AddressWord(q.currency1);
    if currency1.None? {
      return Err(InvalidAddress);
    }
    head := head + currency1.value;
    head := head + Uint(q.fee);
    head := head + Int256Signed(q.tickSpacing);
    var hooks := AddressWord(Hooks(q));
    if hooks.None? {
      return Err(InvalidAddress);
    }
    head := head + hooks.value;
    result := Ok(head);
  }

  /** Appends word after word; the offset is computed from the buffer's length at that point. */
  method BuildCalldata(selector: seq<Byte>, q: Quote) returns (result: Result<seq<Byte>, Error>)
    requires |selector| == 4 && Parsed(q)
    ensures result.Ok? <==> Accepted(q)
    ensures result.Ok? ==> result.value == Encode(selector, q)
    ensures result == Err(ExceedsUint256) <==>
            |q.currency0| == 20 && |q.currency1| == 20 && |Hooks(q)| == 20 && q.amountIn >= TWO_256
  {
    var head := selector;
    var key := BuildKeyWords(q);
    if key.Err? {
      return key;
    }
    head := head + key.value;
    head := head + BoolWord(q.zeroForOne);
    U256Value(q.amountIn);
    var amount := U256Bytes(q.amountIn);
    if amount.None? {
      return Err(ExceedsUint256);
    }
    head := head + amount.value;
    assert head == selector + Head(q);
    var offset := (|head| - 4) + 32;
    head := head + Uint(offset);
    var tail := EncodeTail(q.hookData);
    result := Ok(head + tail);
  }
}
